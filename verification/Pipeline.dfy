/** From the noops to the release: which changes of a node a release brings
    were reported and passed, and which were not. */
module Pipeline {
  import opened Wrappers
  import opened CommitGraph
  import opened NoopReports
  import opened NoopRuns
  import opened DeltaCoverage
  import opened ReportRuns
  import Approval
  import ApplyRun
  import GroupReports
  import Grouping
  import Release

  /** The owners CODEOWNERS gives to a resource of a report. */
  type Codeowners = Grouping.GroupedResource -> Approval.Ownership

  function OwnersOf(resources: seq<Grouping.GroupedResource>, owners: Codeowners): (r: seq<Approval.Ownership>)
    ensures |r| == |resources| && forall i :: 0 <= i < |resources| ==> r[i] == owners(resources[i])
  {
    seq(|resources|, i requires 0 <= i < |resources| => owners(resources[i]))
  }

  /** The evidence on a commit is what the noop loop left on disk. */
  ghost predicate ReadFrom(ev: Release.Evidence, disk: map<Oid, OnDisk>, c: Oid, owners: Codeowners) {
    if c !in disk then ev.stored.NotStored?
    else match disk[c]
      case Damaged => ev.stored.Unreadable?
      case Intact(OutsideLineages) => ev.stored == Release.Stored(Release.OwnedReport([], false))
      case Intact(Changes(report)) => ev.stored.Stored? && ev.stored.report.resources == OwnersOf(report.resources,
                                                                                                  owners)
  }

  /** A resource passed: an admin, or an owner of the resource who is no author of
      the commit, approved, unless issues are closed without consent. */
  ghost predicate Passed(own: Approval.Ownership, people: Reply<Release.People>, conf: Release.Conf) {
    || conf.autoCloseIssues
    || (people.Answer? && (Release.ByAdmin(people.value, conf) || Release.ByOwnerOf(own, people.value)))
  }

  // ------------------------------------------------------------------- releases

  /** One run of the apply loop that released a tag, and the reports it found on disk. */
  datatype Released = Released(tags: ApplyRun.Tags, answers: ApplyRun.Answers, choice: ApplyRun.Choice,
                               disk: map<Oid, OnDisk>)
  {
    ghost predicate Right(repo: Repo, conf: Release.Conf) {
      choice.FirstReady(repo, tags, conf, answers) && HasRev() && Rev() in repo.parents
    }

    ghost predicate HasRev() {
      0 < choice.ready <= |choice.nextTags| && choice.nextTags[choice.ready-1] in tags.commits
    }

    /** The commit of the released tag. */
    ghost function Rev(): Oid {
      if HasRev() then tags.commits[choice.nextTags[choice.ready-1]] else ZERO_OID
    }

    ghost function Base(): Oid
      requires choice.common in tags.commits
    {
      tags.commits[choice.common]
    }

    /** What it knew of a commit for its i-th tag. */
    ghost function About(i: nat, c: Oid): Release.Evidence
      requires i < |choice.nextTags|
    {
      answers(choice.nextTags[i]).evidence(c)
    }

    /** It read the reports of this disk, which were not changed since. */
    ghost predicate Reads(filed: map<Oid, OnDisk>, owners: Codeowners) {
      && choice.ready <= |choice.nextTags|
      && (forall i, d :: 0 <= i < choice.ready ==> ReadFrom(About(i, d), disk, d, owners))
      && forall d :: d in filed ==> d in disk && disk[d] == filed[d]
    }
  }

  /** Releases that follow each other, for a node that had this commit: the
      common tag of each lies in what the node had before it. */
  ghost predicate Follow(repo: Repo, conf: Release.Conf, releases: seq<Released>, had: Oid) {
    had in repo.parents && forall n :: 0 <= n < |releases| ==> FollowsAt(repo, conf, releases, had, n)
  }

  ghost predicate FollowsAt(repo: Repo, conf: Release.Conf, releases: seq<Released>, had: Oid, n: nat)
    requires n < |releases|
  {
    && releases[n].Right(repo, conf) && Before(releases, had, n) in repo.parents
    && releases[n].Base() in History(repo, Before(releases, had, n))
  }

  /** What the node had before the n-th release. */
  ghost function Before(releases: seq<Released>, had: Oid, n: nat): Oid
    requires n <= |releases|
  {
    if n == 0 then had else releases[n-1].Rev()
  }

  ghost predicate ReviewedBy(rel: Released, i: nat, c: Oid, conf: Release.Conf) {
    && i < rel.choice.ready <= |rel.choice.nextTags|
    && Release.Reviewed(rel.About(i, c), rel.choice.nextTags[i], conf)
    && rel.About(i, c).issue == Answer(Some(Release.Issue(Some(rel.choice.nextTags[i]))))
  }

  lemma FollowBefore(repo: Repo, conf: Release.Conf, releases: seq<Released>, had: Oid)
    requires releases != [] && Follow(repo, conf, releases, had)
    ensures Follow(repo, conf, releases[..|releases|-1], had)
  {
    var before := releases[..|releases|-1];
    forall n | 0 <= n < |before| ensures FollowsAt(repo, conf, before, had, n) {
      assert FollowsAt(repo, conf, releases, had, n);
    }
  }

  /** Every commit that releases following each other bring to a node was
      reviewed by one of them, for one of its tags. */
  lemma {:induction false} ChainReviewed(repo: Repo, conf: Release.Conf, releases: seq<Released>, had: Oid, c: Oid)
    returns (n: nat, i: nat)
    requires releases != [] && Follow(repo, conf, releases, had)
    requires releases[|releases|-1].Rev() in repo.parents
    requires c in History(repo, releases[|releases|-1].Rev()) && c !in History(repo, had)
    ensures n < |releases| && ReviewedBy(releases[n], i, c, conf)
    ensures i < |releases[n].choice.nextTags|
    ensures var tag := releases[n].choice.nextTags[i];
            releases[n].answers(tag).evidence(c).issue == Answer(Some(Release.Issue(Some(tag))))
    decreases |releases|
  {
    hide Release.ReadyAt, Release.VouchedAt, Release.Reviewed;
    var last := |releases| - 1;
    var before, rel := Before(releases, had, last), releases[last];
    assert FollowsAt(repo, conf, releases, had, last);
    if c in History(repo, before) {
      FollowBefore(repo, conf, releases, had);
      n, i := ChainReviewed(repo, conf, releases[..last], had, c);
    } else {
      n := last;
      i := Release.ReleaseReviewed(repo, conf, rel.tags.commits, rel.choice.nextTags, rel.choice.common, rel.answers,
                                   rel.choice.ready, before, c);
    }
  }

  lemma ListedReviewed(disk: map<Oid, OnDisk>, c: Oid, owners: Codeowners, ev: Release.Evidence, tag: Tag,
                       conf: Release.Conf, h: Host, t: Title, g: nat)
    requires c in disk && disk[c].Intact? && ListedOnce(disk[c].filing, h, t, g)
    requires ReadFrom(ev, disk, c, owners) && Release.Reviewed(ev, tag, conf)
    ensures Passed(owners(disk[c].filing.report.resources[g]), ev.people, conf)
  {
    hide Release.ByOwnerOf;
    var own := owners(disk[c].filing.report.resources[g]);
    assert ev.stored.report.resources[g] == own;
    assert own in ev.stored.report.resources;
  }

  // ---------------------------------------------------------- changes of a node

  /** The reports there were, and the releases made of them. */
  datatype World = World(filed: map<Oid, OnDisk>, runs: seq<Run>, stored: map<NoopKey, StoredNoop>, from: nat,
                         site: Site,
                         releases: seq<Released>, conf: Release.Conf, owners: Codeowners)
  {
    /** The runs since `from` saw one site, and the releases follow each other for the node. */
    ghost predicate Valid(h: Host) {
      && Chained(runs, stored) && Steady(runs, from, site) && site.Valid() && h in site.lastApply
      && site.SettingOf(stored, h).Valid()
      && releases != [] && Follow(site.repo, conf, releases, site.lastApply[h])
      && releases[|releases|-1].Rev() in site.repo.parents
      && forall n :: 0 <= n < |releases| ==> releases[n].Reads(filed, owners)
    }

    /** The node as the theory of delta coverage sees it. */
    ghost function Node(h: Host): Setting
      requires Valid(h)
    {
      site.SettingOf(stored, h)
    }

    /** The releases bring the commit to the node. */
    ghost predicate Brings(h: Host, c: Oid)
      requires Valid(h)
    {
      c in Range(site.repo, site.lastApply[h], releases[|releases|-1].Rev())
    }

    /** The report on commit d has the change of the node, in a resource that passed. */
    ghost predicate ReviewedIn(h: Host, d: Oid, t: Title, x: Grouping.Change, r: nat, g: nat, k: Host, n: nat, i: nat) {
      && ReportedIn(filed, runs, from, site, h, d, t, x, r, g, k)
      && n < |releases| && i < releases[n].choice.ready <= |releases[n].choice.nextTags|
      && Passed(owners(filed[d].filing.report.resources[g]), releases[n].About(i, d).people, conf)
      && releases[n].About(i, d).issue == Answer(Some(Release.Issue(Some(releases[n].choice.nextTags[i]))))
    }

    /** The releases had the change of the node reviewed with some commit they
        brought, of the history of this one. */
    ghost predicate Reviewed(h: Host, c: Oid, t: Title, x: Grouping.Change)
      requires Valid(h) && c in site.repo.parents
    {
      exists d, r, g, k, n, i :: d in History(site.repo, c) && Brings(h, d) && ReviewedIn(h, d, t, x, r, g, k, n, i)
    }

    /** A change in the delta of a commit whose report covers the node was reviewed. */
    lemma DeltaReviewed(h: Host, d: Oid, t: Title, x: Grouping.Change) returns (r: nat, g: nat, k: Host, n: nat, i: nat)
      requires Valid(h) && Brings(h, d) && OnFile(filed, runs, from, h, d)
      requires t in Node(h).Delta(d) && Grouping.Has(Node(h).Delta(d)[t], x)
      ensures ReviewedIn(h, d, t, x, r, g, k, n, i)
    {
      hide Chained, Steady, Run.Covers, Grouping.Has, Setting.Delta, ShownFrom, Release.Reviewed, Passed;
      hide Grouping.Agree, Grouping.Shows;
      r, g, k := InReport(filed, runs, stored, from, site, h, d, t, x);
      n, i := ChainReviewed(site.repo, conf, releases, site.lastApply[h], d);
      var rel := releases[n];
      assert rel.Reads(filed, owners);
      ListedReviewed(rel.disk, d, owners, rel.About(i, d), rel.choice.nextTags[i], conf, h, t, g);
    }

    /** What is pending in the history of a commit is brought along with it. */
    lemma BroughtAlong(h: Host, c: Oid, d: Oid)
      requires Valid(h) && Brings(h, c) && d in History(site.repo, c) && Node(h).Pending(d)
      ensures Brings(h, d)
    {
      HistoryTransitive(site.repo, d, c, releases[|releases|-1].Rev());
    }

    /** The other way: a reported change is in the delta of a pending commit that covers the node. */
    lemma ReportedDelta(h: Host, d: Oid, t: Title, e: Event, r: nat, g: nat, k: Host)
      requires Valid(h) && ReportedIn(filed, runs, from, site, h, d, t, Grouping.OfEvent(e), r, g, k)
      ensures d in site.repo.parents && Node(h).Pending(d) && Node(h).EventInDelta(d, t, e)
      ensures OnFile(filed, runs, from, h, d)
    {
      hide Chained, Steady, Setting.InAllLineages, Setting.Applied, LoadFrom;
      RunDelta(runs, stored, from, site, r, d, filed[d].filing, h);
      var s := Node(h);
      EventSurvives(s.UsedReport(d), s.Priors(d), s.ignored, t, e);
    }

    lemma ReviewedBack(h: Host, c: Oid, t: Title, e: Event) returns (d: Oid)
      requires Valid(h) && Brings(h, c) && Reviewed(h, c, t, Grouping.OfEvent(e))
      ensures d in History(site.repo, c) && d in site.repo.parents && Node(h).Pending(d)
      ensures Node(h).EventInDelta(d, t, e)
      ensures OnFile(filed, runs, from, h, d)
    {
      hide Chained, Steady, Follow, ReviewedIn, OnFile, Setting.InAllLineages, Setting.Applied, Setting.EventInDelta;
      hide LoadFrom, Released.Reads, Brings;
      var d0, r, g, k, n, i :| d0 in History(site.repo, c) && Brings(h, d0)
                               && ReviewedIn(h, d0, t, Grouping.OfEvent(e), r, g, k, n, i);
      d := d0;
      ReviewedReported(h, d, t, Grouping.OfEvent(e), r, g, k, n, i);
      ReportedDelta(h, d, t, e, r, g, k);
    }

    /** Release review, exactly: an event was reviewed with a commit of the history
        of a released commit if and only if it is in the delta of a pending commit
        there whose report on disk covers the node. */
    lemma ReviewedExactly(h: Host, c: Oid, t: Title, e: Event)
      requires Valid(h) && Brings(h, c)
      ensures Reviewed(h, c, t, Grouping.OfEvent(e))
          <==> exists d :: d in History(site.repo, c) && Node(h).Pending(d) && Node(h).EventInDelta(d, t, e)
                           && OnFile(filed, runs, from, h, d)
    {
      hide Chained, Steady, Follow, ReviewedIn, OnFile, Setting.InAllLineages, Setting.Applied, Setting.EventInDelta;
      hide LoadFrom, Released.Reads;
      if Reviewed(h, c, t, Grouping.OfEvent(e)) {
        var d := ReviewedBack(h, c, t, e);
      }
      if d :| d in History(site.repo, c) && Node(h).Pending(d) && Node(h).EventInDelta(d, t, e)
              && OnFile(filed, runs, from, h, d)
      {
        BroughtAlong(h, c, d);
        DeltaHas(h, d, t, e);
        var r, g, k, n, i := DeltaReviewed(h, d, t, Grouping.OfEvent(e));
      }
    }

    lemma ReviewedReported(h: Host, d: Oid, t: Title, x: Grouping.Change, r: nat, g: nat, k: Host, n: nat, i: nat)
      requires ReviewedIn(h, d, t, x, r, g, k, n, i)
      ensures ReportedIn(filed, runs, from, site, h, d, t, x, r, g, k)
    {
    }

    lemma DeltaHas(h: Host, d: Oid, t: Title, e: Event)
      requires Valid(h) && d in site.repo.parents && Node(h).EventInDelta(d, t, e)
      ensures t in Node(h).Delta(d) && Grouping.Has(Node(h).Delta(d)[t], Grouping.OfEvent(e))
    {
    }

    /** When the node took part in the reports on all pending commits of the
        history: an event that is not ignored was reviewed if and only if a pending
        commit of the history has it. */
    lemma ReviewedIfPending(h: Host, c: Oid, t: Title, e: Event)
      requires Valid(h) && Brings(h, c) && site.rules.ignored(t) == Answer(false)
      requires AllOnFile(filed, runs, from, site, stored, h, c)
      ensures Reviewed(h, c, t, Grouping.OfEvent(e))
          <==> exists d :: d in History(site.repo, c) && Node(h).Pending(d) && Node(h).HasEvent(d, t, e)
    {
      hide OnFile, Setting.Pending, Setting.EventInDelta, Setting.HasEvent, Chained, Steady, Follow, Reviewed;
      ReviewedExactly(h, c, t, e);
      Node(h).CoveredIfPending(c, t, e);
    }

    /** The exact condition for a change that is new with a released commit: it was
        reviewed if and only if the commit is in the lineage of all nodes and the
        report on it covers the node. */
    lemma NewChangeReviewed(h: Host, c: Oid, t: Title, e: Event)
      requires Valid(h) && Brings(h, c) && site.rules.ignored(t) == Answer(false) && Node(h).NewWith(c, t, e)
      ensures Reviewed(h, c, t, Grouping.OfEvent(e))
          <==> Node(h).InAllLineages(c) && OnFile(filed, runs, from, h, c)
    {
      hide Chained, Steady, Follow, OnFile, Reviewed, Setting.InAllLineages, Setting.HasEvent, Setting.EventInDelta;
      hide LoadFrom, Released.Reads;
      var s := Node(h);
      ReviewedExactly(h, c, t, e);
      if s.InAllLineages(c) {
        assert s.Pending(c);
        s.NewInDelta(c, t, e);
      }
      if d :| d in History(site.repo, c) && s.Pending(d) && s.EventInDelta(d, t, e) && OnFile(filed, runs, from, h, d) {
        s.InDeltaHas(d, t, e);
      }
    }

    /** A released change of a node, end to end: every event of a released commit
        that is in the lineage of all nodes, its resource not ignored, is in the
        report on a commit of the release. One resource of it lists the node, was
        passed, and prints the event when grouped deltas agree. */
    lemma EveryChangeReviewed(h: Host, c: Oid, t: Title, e: Event)
      requires Valid(h) && Brings(h, c) && site.rules.ignored(t) == Answer(false)
      requires Node(h).InAllLineages(c) && AllOnFile(filed, runs, from, site, stored, h, c)
      requires Node(h).HasEvent(c, t, e)
      ensures Reviewed(h, c, t, Grouping.OfEvent(e))
    {
      hide AllOnFile, Chained, Steady, Follow, Reviewed, Setting.HasEvent, Setting.InAllLineages, LoadFrom;
      assert Node(h).Pending(c);
      ReviewedIfPending(h, c, t, e);
    }

    /** The same for logs, when new logs name listed resources. */
    lemma EveryLogReviewed(h: Host, c: Oid, l: Log)
      requires Valid(h) && Brings(h, c) && AllOnFile(filed, runs, from, site, stored, h, c)
      requires Node(h).PendingLog(c, l) && Node(h).NewLogsListed(c)
      ensures Reviewed(h, c, l.source, Grouping.OfLog(l))
    {
      hide Chained, Steady, Follow, ReviewedIn, OnFile, LoadFrom, Setting.LogTrail, Setting.NewLogsListed;
      hide Setting.InAllLineages, Released.Reads;
      var d := Node(h).LogCoverage(c, l);
      BroughtAlong(h, c, d);
      var r, g, k, n, i := DeltaReviewed(h, d, l.source, Grouping.OfLog(l));
    }
  }

  // --------------------------------------------------------- what is not reviewed

  /** A commit outside the lineage of some node passes with its milestone alone. */
  lemma OutsideCleared(disk: map<Oid, OnDisk>, c: Oid, owners: Codeowners, ev: Release.Evidence, tag: Tag,
                       conf: Release.Conf)
    requires c in disk && disk[c] == Intact(OutsideLineages) && ReadFrom(ev, disk, c, owners)
    ensures Release.Cleared(ev, tag, conf) <==> ev.issue == Answer(Some(Release.Issue(Some(tag))))
  {
  }

  /** Commit 2 and commit 3 are both children of commit 1. */
  function SideRepo(): Repo {
    Graph(map[1 := [], 2 := [1], 3 := [1]], map[1 := 0, 2 := 1, 3 := 1])
  }

  lemma SideHistories()
    ensures History(SideRepo(), 1) == {1} && History(SideRepo(), 2) == {1, 2} && History(SideRepo(), 3) == {1, 3}
  {
    var repo := SideRepo();
    forall a ensures Reaches(repo, 1, a) <==> a == 1 {
      assert repo.parents[1] == [];
    }
    forall a ensures Reaches(repo, 2, a) <==> a == 1 || a == 2 {
      assert repo.parents[2] == [1] && 1 in repo.parents[2] && forall p :: p in repo.parents[2] ==> p == 1;
    }
    forall a ensures Reaches(repo, 3, a) <==> a == 1 || a == 3 {
      assert repo.parents[3] == [1] && 1 in repo.parents[3] && forall p :: p in repo.parents[3] ==> p == 1;
    }
  }

  /** Node a has commit 1, node b commit 3; a's noop of commit 2 has the event. */
  function SideNode(t: Title, e: Event): Setting {
    Setting(SideRepo(), map["a" := 1, "b" := 3], "a", NoopOnlyOf(2, t, e), (u: Title) => Answer(false))
  }

  /** All that is known of commit 2: its issue has the milestone, and its report is empty. */
  function SideAnswers(): ApplyRun.Answers {
    (tag: Tag) =>
      Release.TagAnswers(Answer(Some(true)), true, (c: Oid) =>
        Release.Evidence(Answer(Some(Release.Issue(Some("v2")))), Release.Stored(Release.OwnedReport([], false)),
                         Failed))
  }

  lemma SideOutside(t: Title, e: Event)
    ensures var node := SideNode(t, e);
            && node.Valid() && node.HasEvent(2, t, e) && !node.Applied(2) && !node.InAllLineages(2)
            && !node.Covered(2, t, e)
  {
    hide Reaches;
    SideHistories();
    var node := SideNode(t, e);
    assert !CommitInNodeLineage(node.repo, 2, node.lastApply["b"]);
    node.CoveredIfPending(2, t, e);
  }

  /** The side branch: the commits of tag v2 bring an event to node a, which has
      the common tag, though nobody could look at the event or approved it. Commit
      2 lies outside the lineage of node b; its report is empty and the tag ready. */
  lemma SideBranchUnreviewed(t: Title, e: Event, owners: Codeowners)
    ensures var node, commits, conf := SideNode(t, e), map["v1" := 1, "v2" := 2], Release.Conf(false, []);
            && node.Valid() && node.HasEvent(2, t, e) && !node.Covered(2, t, e)
            && 2 in Range(node.repo, 1, 2) && commits["v1"] in History(node.repo, node.lastApply[node.host])
            && Release.Resolves(node.repo, commits, ["v1", "v2"])
            && Release.ReadyAt(node.repo, conf, commits, ["v2"], "v1", SideAnswers(), 0)
            && ReadFrom(SideAnswers()("v2").evidence(2), map[2 := Intact(OutsideLineages)], 2, owners)
            && !node.InAllLineages(2)
  {
    hide Reaches, Setting.Covered, Setting.HasEvent, Release.ReadyAt, CommitInNodeLineage;
    SideOutside(t, e);
    SideHistories();
    SideReady();
  }

  lemma SideReady()
    ensures var commits := map["v1" := 1, "v2" := 2];
            && Release.Resolves(SideRepo(), commits, ["v1", "v2"]) && ["v1", "v2"] == ["v1"] + ["v2"]
            && Release.ReadyAt(SideRepo(), Release.Conf(false, []), commits, ["v2"], "v1", SideAnswers(), 0)
  {
    hide Reaches;
    SideHistories();
    var repo, conf := SideRepo(), Release.Conf(false, []);
    assert Range(repo, 1, 2) == {2};
    var ev := SideAnswers()("v2").evidence(2);
    assert Release.Cleared(ev, "v2", conf) && !Release.Open(ev, "v2", conf);
    var classes := Release.Classes({2}, "v2", conf, SideAnswers()("v2").evidence);
    assert 2 in classes && classes[2] == Release.Approved;
    assert ["v1", "v2"] == ["v1"] + ["v2"];
  }
}
