/** Choosing the tag to release: the common tag of the nodes, the approval of
    every commit between tags, and what a release brings to a node. */
module Release {
  import opened Wrappers
  import opened CommitGraph
  import NoopReports
  import opened SemVerTags
  import opened Approval

  /** The part of a stored noop that decides whether and by whom it is approved. */
  datatype OwnedReport = OwnedReport(resources: seq<Ownership>, evalErrors: bool)
  datatype StoredReport = NotStored | Unreadable | Stored(report: OwnedReport)
  datatype Issue = Issue(milestone: Option<Tag>)
  datatype People = People(groups: Groups, approvers: seq<Login>, authors: seq<Login>)

  /** Everything GitHub and the disk answer about one commit. */
  datatype Evidence = Evidence(issue: Reply<Option<Issue>>, stored: StoredReport, people: Reply<People>)

  datatype Conf = Conf(autoCloseIssues: bool, adminOwners: seq<Login>)

  /** The answers about one tag: the milestone, `true` if it is closed already,
      whether closing it would succeed, and the evidence on each commit. */
  datatype TagAnswers = TagAnswers(milestone: Reply<Option<bool>>, canClose: bool, evidence: Oid -> Evidence)

  datatype Class = Undetermined | Unapproved | Approved

  predicate NoopRequiresApproval(gr: OwnedReport) {
    |gr.resources| > 0 || gr.evalErrors
  }

  function OwnSet(resources: seq<Ownership>): set<Ownership> {
    set own | own in resources
  }

  /** The commit has an issue, and the issue the milestone of the tag. */
  predicate Assigned(ev: Evidence, nextTag: Tag) {
    ev.issue.Answer? && ev.issue.value.Some? && ev.issue.value.value.milestone == Some(nextTag)
  }

  /** Somebody has to approve what the report of the commit shows. */
  predicate NeedsConsent(ev: Evidence, conf: Conf)
    requires ev.stored.Stored?
  {
    NoopRequiresApproval(ev.stored.report) && !conf.autoCloseIssues
  }

  /** An admin approved, author or not. */
  predicate ByAdmin(people: People, conf: Conf) {
    exists a :: a in conf.adminOwners && a in people.approvers
  }

  /** The authors are known and, themselves aside, the codeowners approve every resource. */
  ghost predicate ByCodeowners(resources: seq<Ownership>, people: People) {
    people.authors != []
    && forall own :: own in resources ==> Approves(own, people.groups, ToSet(people.approvers) - ToSet(people.authors))
  }

  ghost predicate Consent(ev: Evidence, conf: Conf)
    requires ev.stored.Stored?
  {
    ev.people.Answer?
    && (ByAdmin(ev.people.value, conf) || ByCodeowners(ev.stored.report.resources, ev.people.value))
  }

  /** Nothing stands in the way of the commit. */
  ghost predicate Cleared(ev: Evidence, nextTag: Tag, conf: Conf) {
    Assigned(ev, nextTag) && ev.stored.Stored? && (NeedsConsent(ev, conf) ==> Consent(ev, conf))
  }

  /** An answer that matters is missing. */
  ghost predicate Open(ev: Evidence, nextTag: Tag, conf: Conf) {
    || ev.issue.Failed?
    || (Assigned(ev, nextTag)
        && (ev.stored.Unreadable? || (ev.stored.Stored? && NeedsConsent(ev, conf) && ev.people.Failed?)))
  }

  ghost function Classify(ev: Evidence, nextTag: Tag, conf: Conf): Class {
    if Open(ev, nextTag, conf) then Undetermined else if Cleared(ev, nextTag, conf) then Approved else Unapproved
  }

  method Unmarshal(resources: seq<Ownership>) returns (grs: seq<OwnedResource>)
    ensures Owns(grs) == OwnSet(resources)
    ensures fresh(grs)
  {
    grs := [];
    for i := 0 to |resources|
      invariant |grs| == i && forall k :: 0 <= k < i ==> grs[k].own == resources[k]
      invariant forall k :: 0 <= k < i ==> fresh(grs[k])
    {
      var gr := new OwnedResource(resources[i]);
      grs := grs + [gr];
    }
    forall own | own in Owns(grs) ensures own in OwnSet(resources) {
      var gr :| gr in grs && gr.own == own;
      var k :| 0 <= k < |grs| && grs[k] == gr;
      assert resources[k] in resources;
    }
    forall own | own in OwnSet(resources) ensures own in Owns(grs) {
      var k :| 0 <= k < |resources| && resources[k] == own;
      assert grs[k] in grs && grs[k].own == own;
    }
    assert Owns(grs) == OwnSet(resources);
  }

  lemma VerdictMeans(grs: seq<OwnedResource>, resources: seq<Ownership>, p: People, conf: Conf)
    requires Owns(grs) == OwnSet(resources)
    ensures Verdict(Owns(grs), p.groups, ToSet(p.approvers), ToSet(p.authors), conf.adminOwners) == NotApproved
        <==> !ByAdmin(p, conf) && !ByCodeowners(resources, p)
  {
    hide Approves;
    assert p.authors != [] ==> p.authors[0] in ToSet(p.authors);
    forall own ensures own in Owns(grs) <==> own in resources {
      assert own in OwnSet(resources) <==> own in resources;
    }
  }

  /** The body of the loop over the commits of a tag. */
  method ClassifyCommit(ev: Evidence, nextTag: Tag, conf: Conf) returns (c: Class)
    ensures c == Approved <==> Cleared(ev, nextTag, conf)
    ensures c == Undetermined <==> Open(ev, nextTag, conf)
    ensures ev.issue.Answer? && ev.issue != Answer(Some(Issue(Some(nextTag)))) ==> c == Unapproved
    ensures c == Approved ==> ev.issue == Answer(Some(Issue(Some(nextTag)))) && ev.stored.Stored?
    ensures ev.issue == Answer(Some(Issue(Some(nextTag)))) && ev.stored.Stored? ==>
              var resources := ev.stored.report.resources;
              && (c == Approved <==>
                  || conf.autoCloseIssues || (resources == [] && !ev.stored.report.evalErrors)
                  || (ev.people.Answer? && var p := ev.people.value;
                      || (exists a :: a in conf.adminOwners && a in p.approvers)
                      || (p.authors != [] && forall own :: own in resources ==>
                            Approves(own, p.groups, ToSet(p.approvers) - ToSet(p.authors)))))
              && (c == Undetermined <==>
                  !conf.autoCloseIssues && (resources != [] || ev.stored.report.evalErrors) && ev.people.Failed?)
    ensures ev.issue == Answer(Some(Issue(Some(nextTag)))) && ev.stored.NotStored? ==> c == Unapproved
    ensures ev.issue == Answer(Some(Issue(Some(nextTag)))) && ev.stored.Unreadable? ==> c == Undetermined
    ensures ev.issue.Failed? ==> c == Undetermined
  {
    if ev.issue.Failed? { return Undetermined; }
    var issue := ev.issue.value;
    if issue.None? { return Unapproved; }
    if issue.value.milestone.None? || issue.value.milestone.value != nextTag { return Unapproved; }
    match ev.stored {
      case NotStored => return Unapproved;
      case Unreadable => return Undetermined;
      case Stored(gr) =>
        if !NoopRequiresApproval(gr) { return Approved; }
        if conf.autoCloseIssues { return Approved; }
        if ev.people.Failed? { return Undetermined; }
        var p := ev.people.value;
        var grs := Unmarshal(gr.resources);
        var ns := NoopApproved(grs, p.groups, p.approvers, p.authors, conf.adminOwners);
        VerdictMeans(grs, gr.resources, p, conf);
        match ns.approved {
          case NotApproved => return Unapproved;
          case CodeownersApproved => return Approved;
          case AdminApproved => return Approved;
        }
    }
  }

  // ------------------------------------------------------------ what approval means

  /** An owner of the resource, or a member of it, approved and is no author. */
  ghost predicate ByOwnerOf(own: Ownership, people: People) {
    OwnerApproved(own, people.groups, ToSet(people.approvers), ToSet(people.authors))
  }

  /** Somebody entitled to it approved: an admin, or an owner of some resource who is no author. */
  ghost predicate BySomebody(resources: seq<Ownership>, people: People, conf: Conf) {
    ByAdmin(people, conf) || exists own :: own in resources && ByOwnerOf(own, people)
  }

  lemma CodeownersMean(resources: seq<Ownership>, people: People, own: Ownership)
    requires ByCodeowners(resources, people) && own in resources
    ensures ByOwnerOf(own, people)
  {
    hide Approves, OwnerApproved;
    assert people.authors[0] in ToSet(people.authors);
    NonAuthorApproved(OwnSet(resources), people.groups, ToSet(people.approvers), ToSet(people.authors), [], own);
  }

  /** Each resource of a cleared commit has the approval of an owner, unless an
      admin approved or issues are closed without approval. */
  lemma ClearedReviewed(ev: Evidence, nextTag: Tag, conf: Conf)
    requires Cleared(ev, nextTag, conf) && !conf.autoCloseIssues && ev.stored.report.resources != []
    ensures ev.people.Answer?
    ensures ByAdmin(ev.people.value, conf)
            || forall own :: own in ev.stored.report.resources ==> ByOwnerOf(own, ev.people.value)
  {
    hide ByOwnerOf, ByCodeowners;
    if !ByAdmin(ev.people.value, conf) {
      forall own | own in ev.stored.report.resources ensures ByOwnerOf(own, ev.people.value) {
        CodeownersMean(ev.stored.report.resources, ev.people.value, own);
      }
    }
  }

  /** A commit that needs consent is cleared by somebody's approval exactly when
      it changes a resource, or an admin approved. */
  lemma ClearedBySomebody(ev: Evidence, nextTag: Tag, conf: Conf)
    requires Cleared(ev, nextTag, conf) && NeedsConsent(ev, conf)
    ensures ev.people.Answer?
    ensures BySomebody(ev.stored.report.resources, ev.people.value, conf)
        <==> ev.stored.report.resources != [] || ByAdmin(ev.people.value, conf)
  {
    hide ByOwnerOf, ByCodeowners;
    var resources := ev.stored.report.resources;
    if resources != [] && !ByAdmin(ev.people.value, conf) {
      CodeownersMean(resources, ev.people.value, resources[0]);
      assert resources[0] in resources;
    }
  }

  /** So evaluation errors alone are approved by nobody: they need consent, and
      pass for codeowner-approved as soon as an author is known. */
  lemma EvalErrorsPass(nextTag: Tag, author: Login)
    ensures var people := People(map[], [], [author]);
            var ev := Evidence(Answer(Some(Issue(Some(nextTag)))), Stored(OwnedReport([], true)), Answer(people));
            var conf := Conf(false, []);
            NeedsConsent(ev, conf) && Cleared(ev, nextTag, conf) && !BySomebody(ev.stored.report.resources, people,
                                                                                conf)
  {
  }

  /** What is left of the evidence when nothing the authors approved counts. */
  function WithoutAuthors(ev: Evidence): Evidence {
    match ev.people
    case Failed => ev
    case Answer(p) =>
      ev.(people := Answer(p.(approvers := NoopReports.Select(p.approvers, (u: Login) => u !in p.authors))))
  }

  /** An approving admin who is no author. */
  predicate ByOtherAdmin(people: People, conf: Conf) {
    exists a :: a in conf.adminOwners && a in people.approvers && a !in people.authors
  }

  /** A cleared commit stays cleared without its authors' approvals exactly when
      the codeowners approved it or some approving admin is no author. */
  lemma ClearedWithoutAuthors(ev: Evidence, nextTag: Tag, conf: Conf)
    requires Cleared(ev, nextTag, conf) && NeedsConsent(ev, conf)
    ensures ev.people.Answer?
    ensures Cleared(WithoutAuthors(ev), nextTag, conf)
        <==> ByOtherAdmin(ev.people.value, conf) || ByCodeowners(ev.stored.report.resources, ev.people.value)
  {
    hide Approves;
    var p, others := ev.people.value, WithoutAuthors(ev).people.value;
    forall u ensures u in others.approvers <==> u in p.approvers && u !in p.authors {
      NoopReports.SelectMember(p.approvers, (v: Login) => v !in p.authors, u);
    }
    assert ToSet(others.approvers) - ToSet(others.authors) == ToSet(p.approvers) - ToSet(p.authors);
  }

  /** The admin rule overrides the authors rule: an admin clears a commit alone
      of which he is the author. */
  lemma AuthorAdminPasses(nextTag: Tag, own: Ownership, admin: Login)
    ensures var people := People(map[], [admin], [admin]);
            var ev := Evidence(Answer(Some(Issue(Some(nextTag)))), Stored(OwnedReport([own], false)), Answer(people));
            var conf := Conf(false, [admin]);
            NeedsConsent(ev, conf) && Cleared(ev, nextTag, conf) && !Cleared(WithoutAuthors(ev), nextTag, conf)
  {
    var people := People(map[], [admin], [admin]);
    var ev := Evidence(Answer(Some(Issue(Some(nextTag)))), Stored(OwnedReport([own], false)), Answer(people));
    var conf := Conf(false, [admin]);
    assert admin in conf.adminOwners && admin in people.approvers;
    NobodyApproves(own, people.groups);
    ClearedWithoutAuthors(ev, nextTag, conf);
    assert ToSet(people.approvers) - ToSet(people.authors) == {};
  }

  lemma NobodyApproves(own: Ownership, groups: Groups)
    ensures !Approves(own, groups, {})
  {
    if own.nodeFiles != [] {
      assert own.nodeFiles[0] in own.nodeFiles;
    }
  }

  ghost function Classes(commits: set<Oid>, nextTag: Tag, conf: Conf, evidence: Oid -> Evidence): (m: map<Oid, Class>)
    ensures m.Keys == commits
  {
    map c | c in commits :: Classify(evidence(c), nextTag, conf)
  }

  /** Whether all the commits are approved; an undetermined one leaves the question open. */
  ghost function VerdictOf(classes: map<Oid, Class>): Reply<bool> {
    if classes == map[] || exists c :: c in classes && classes[c] == Undetermined then Failed
    else Answer(forall c :: c in classes ==> classes[c] == Approved)
  }

  ghost function TagVerdict(repo: Repo, conf: Conf, prior: Oid, next: Oid, nextTag: Tag,
                            evidence: Oid -> Evidence): Reply<bool>
    requires prior in repo.parents && next in repo.parents
  {
    VerdictOf(Classes(Range(repo, prior, next), nextTag, conf, evidence))
  }

  lemma ClearedIsSettled(ev: Evidence, nextTag: Tag, conf: Conf)
    ensures Cleared(ev, nextTag, conf) ==>
              !Open(ev, nextTag, conf) && ev.issue == Answer(Some(Issue(Some(nextTag)))) && ev.stored.Stored?
  {
  }

  /** What the verdict says of the commits: true means that each one has an issue
      with the milestone of the tag and is cleared; it is open when a commit is,
      or when there is no commit at all. */
  lemma VerdictMeansAll(repo: Repo, conf: Conf, prior: Oid, next: Oid, nextTag: Tag, evidence: Oid -> Evidence)
    requires prior in repo.parents && next in repo.parents
    ensures var r, commits := TagVerdict(repo, conf, prior, next, nextTag, evidence), Range(repo, prior, next);
            && (r == Answer(true) <==>
                commits != {} && forall c :: c in commits ==> Cleared(evidence(c), nextTag, conf))
            && (r.Failed? <==> commits == {} || exists c :: c in commits && Open(evidence(c), nextTag, conf))
            && (r == Answer(true) ==>
                  forall c :: c in commits ==> evidence(c).issue == Answer(Some(Issue(Some(nextTag))))
                                               && evidence(c).stored.Stored?)
  {
    hide Cleared, Open;
    var commits := Range(repo, prior, next);
    var classes := Classes(commits, nextTag, conf, evidence);
    forall c | c in commits
      ensures classes[c] == Approved <==> Cleared(evidence(c), nextTag, conf)
      ensures classes[c] == Undetermined <==> Open(evidence(c), nextTag, conf)
      ensures Cleared(evidence(c), nextTag, conf) ==> evidence(c).issue == Answer(Some(Issue(Some(nextTag))))
                                                      && evidence(c).stored.Stored?
    {
      ClearedIsSettled(evidence(c), nextTag, conf);
    }
    if commits != {} {
      var c :| c in commits;
      assert c in classes;
    }
  }

  method TagApproved(repo: Repo, conf: Conf, prior: Oid, next: Oid, nextTag: Tag, evidence: Oid -> Evidence)
    returns (r: Reply<bool>)
    requires prior in repo.parents && next in repo.parents
    ensures r == TagVerdict(repo, conf, prior, next, nextTag, evidence)
    ensures r == Answer(true) <==> Range(repo, prior, next) != {}
                                   && forall c :: c in Range(repo, prior, next) ==> Cleared(evidence(c), nextTag, conf)
    ensures r.Failed? <==> Range(repo, prior, next) == {}
                           || exists c :: c in Range(repo, prior, next) && Open(evidence(c), nextTag, conf)
    ensures r == Answer(true) ==>
              forall c :: c in Range(repo, prior, next) ==> evidence(c).issue == Answer(Some(Issue(Some(nextTag))))
                                                            && evidence(c).stored.Stored?
  {
    var _, commits := CommitLogIdList(repo, prior, next);
    ghost var classes := Classes(commits.Keys, nextTag, conf, evidence);
    r := CommitsApproved(commits.Keys, conf, nextTag, evidence, classes);
    VerdictMeansAll(repo, conf, prior, next, nextTag, evidence);
  }

  /** The loop over the commits of a tag, visited in any order. */
  method CommitsApproved(commits: set<Oid>, conf: Conf, nextTag: Tag, evidence: Oid -> Evidence,
                         ghost classes: map<Oid, Class>) returns (r: Reply<bool>)
    requires classes.Keys == commits
    requires forall c :: c in commits ==> classes[c] == Classify(evidence(c), nextTag, conf)
    ensures r == VerdictOf(classes)
  {
    hide Cleared, Open, VerdictOf, Dealt;
    NoVerdict(classes);
    if |commits| == 0 {
      return Failed;
    }
    var approved: set<Oid> := {};
    var unapproved: set<Oid> := {};
    var rest := commits;
    DealtStart(commits);
    while rest != {}
      invariant Dealt(commits, approved, unapproved, rest)
      invariant approved <= commits && unapproved <= commits && rest <= commits
      invariant forall c :: c in approved ==> classes[c] == Approved
      invariant forall c :: c in unapproved ==> classes[c] == Unapproved
      decreases |rest|
    {
      var gi :| gi in rest;
      DealtStep(commits, approved, unapproved, rest, gi);
      rest := rest - {gi};
      var c := ClassifyCommit(evidence(gi), nextTag, conf);
      match c {
        case Undetermined => return Failed;
        case Unapproved => unapproved := unapproved + {gi};
        case Approved => approved := approved + {gi};
      }
    }
    DealtVerdict(commits, approved, unapproved, classes);
    return Answer(|commits| == |approved|);
  }

  lemma NoVerdict(classes: map<Oid, Class>)
    ensures classes.Keys == {} || (exists c :: c in classes && classes[c] == Undetermined) ==>
              VerdictOf(classes) == Failed
  {
  }

  lemma DealtStart(all: set<Oid>)
    ensures Dealt(all, {}, {}, all)
  {
  }

  /** Counting the approved commits tells whether all of them are. */
  lemma DealtVerdict(all: set<Oid>, a: set<Oid>, b: set<Oid>, classes: map<Oid, Class>)
    requires Dealt(all, a, b, {}) && all == classes.Keys && all != {}
    requires (forall c :: c in a ==> classes[c] == Approved) && (forall c :: c in b ==> classes[c] == Unapproved)
    ensures VerdictOf(classes) == Answer(|all| == |a|)
  {
  }

  /** A tag whose milestone exists and is, or can be, closed, and whose commits are all approved. */
  ghost predicate Ready(repo: Repo, conf: Conf, prior: Oid, next: Oid, nextTag: Tag, a: TagAnswers)
    requires prior in repo.parents && next in repo.parents
  {
    && a.milestone.Answer? && a.milestone.value.Some?
    && TagVerdict(repo, conf, prior, next, nextTag, a.evidence) == Answer(true)
    && (a.milestone.value.value || a.canClose)
  }

  /** The question about the tag could not be answered. */
  ghost predicate Stuck(repo: Repo, conf: Conf, prior: Oid, next: Oid, nextTag: Tag, a: TagAnswers)
    requires prior in repo.parents && next in repo.parents
  {
    || a.milestone.Failed?
    || (a.milestone.value.Some?
        && (TagVerdict(repo, conf, prior, next, nextTag, a.evidence).Failed?
            || (TagVerdict(repo, conf, prior, next, nextTag, a.evidence) == Answer(true)
                && !a.milestone.value.value && !a.canClose)))
  }

  method TagReadyAndApproved(repo: Repo, conf: Conf, prior: Oid, next: Oid, nextTag: Tag, a: TagAnswers)
    returns (r: Reply<bool>)
    requires prior in repo.parents && next in repo.parents
    ensures r.Failed? <==> Stuck(repo, conf, prior, next, nextTag, a)
    ensures r == Answer(true) <==> Ready(repo, conf, prior, next, nextTag, a)
    ensures r == Answer(true) <==>
            && a.milestone.Answer? && a.milestone.value.Some? && (a.milestone == Answer(Some(true)) || a.canClose)
            && Range(repo, prior, next) != {}
            && forall c :: c in Range(repo, prior, next) ==> Cleared(a.evidence(c), nextTag, conf)
    ensures a.milestone == Answer(None) ==> r == Answer(false)
    ensures r.Failed? <==>
            || a.milestone.Failed?
            || (a.milestone.value.Some? && Range(repo, prior, next) == {})
            || (a.milestone.value.Some? && exists c :: c in Range(repo, prior, next)
                                                       && Open(a.evidence(c), nextTag, conf))
            || (a.milestone == Answer(Some(false)) && !a.canClose
                && forall c :: c in Range(repo, prior, next) ==> Cleared(a.evidence(c), nextTag, conf))
    ensures r == Answer(true) ==>
              forall c :: c in Range(repo, prior, next) ==> a.evidence(c).issue == Answer(Some(Issue(Some(nextTag))))
  {
    VerdictMeansAll(repo, conf, prior, next, nextTag, a.evidence);
    hide TagVerdict, Cleared, Open;
    if a.milestone.Failed? { return Failed; }
    if a.milestone.value.None? { return Answer(false); }
    var approved := TagApproved(repo, conf, prior, next, nextTag, a.evidence);
    if approved.Failed? { return Failed; }
    if !approved.value { return Answer(false); }
    if !a.milestone.value.value {
      if !a.canClose { return Failed; }
    }
    return Answer(true);
  }

  type TagCommits = map<Tag, Oid>

  /** Tags resolve to commits of the repository. */
  ghost predicate Resolves(repo: Repo, tagCommit: TagCommits, tags: seq<Tag>) {
    forall t :: t in tags ==> t in tagCommit && tagCommit[t] in repo.parents
  }

  /** The tag the commits of tags[i] are counted from. */
  function PriorOf(tags: seq<Tag>, prior: Tag, i: nat): (t: Tag)
    requires i <= |tags|
    ensures [t] == ([prior] + tags)[i..i+1]
  {
    if i == 0 then prior else tags[i-1]
  }

  ghost predicate ReadyAt(repo: Repo, conf: Conf, tagCommit: TagCommits, tags: seq<Tag>, prior: Tag,
                          answers: Tag -> TagAnswers, i: nat)
    requires Resolves(repo, tagCommit, [prior] + tags) && i < |tags|
  {
    ResolvesAt(repo, tagCommit, tags, prior, i);
    Ready(repo, conf, tagCommit[PriorOf(tags, prior, i)], tagCommit[tags[i]], tags[i], answers(tags[i]))
  }

  ghost predicate AllReady(repo: Repo, conf: Conf, tagCommit: TagCommits, tags: seq<Tag>, prior: Tag,
                           answers: Tag -> TagAnswers)
    requires Resolves(repo, tagCommit, [prior] + tags)
  {
    forall i :: 0 <= i < |tags| ==> ReadyAt(repo, conf, tagCommit, tags, prior, answers, i)
  }

  /** The last of the next tags, when they are all ready; otherwise no tag. `k`
      counts the tags found ready one after the other. */
  method GreatestTagApproved(repo: Repo, conf: Conf, tagCommit: TagCommits, nextTags: seq<Tag>, priorTag: Tag,
                             answers: Tag -> TagAnswers) returns (r: Reply<Option<Tag>>, ghost k: nat)
    requires nextTags != [] && Resolves(repo, tagCommit, [priorTag] + nextTags)
    ensures k <= |nextTags|
    ensures forall i :: 0 <= i < k ==> ReadyAt(repo, conf, tagCommit, nextTags, priorTag, answers, i)
    ensures k < |nextTags| ==> !ReadyAt(repo, conf, tagCommit, nextTags, priorTag, answers, k)
    ensures r.Answer? && r.value.Some? ==> k > 0 && r.value.value == nextTags[k-1] == nextTags[|nextTags|-1]
    ensures k == |nextTags| ==> r == Answer(Some(nextTags[k-1]))
    ensures AllReady(repo, conf, tagCommit, nextTags, priorTag, answers) ==> r == Answer(Some(nextTags[|nextTags|-1]))
    ensures r.Answer? && r.value.Some? && Distinct(nextTags) ==>
              AllReady(repo, conf, tagCommit, nextTags, priorTag, answers)
  {
    hide Ready, Stuck, TagVerdict;
    var prior := priorTag;
    var approvedTag: Option<Tag> := None;
    k := 0;
    for i := 0 to |nextTags|
      invariant k == i && prior == PriorOf(nextTags, priorTag, i)
      invariant approvedTag == if i == 0 then None else Some(nextTags[i-1])
      invariant forall j :: 0 <= j < i ==> ReadyAt(repo, conf, tagCommit, nextTags, priorTag, answers, j)
    {
      var nextTag := nextTags[i];
      assert nextTag in [priorTag] + nextTags && prior in [priorTag] + nextTags;
      var ready := TagReadyAndApproved(repo, conf, tagCommit[prior], tagCommit[nextTag], nextTag, answers(nextTag));
      if ready.Failed? {
        return Failed, k;
      }
      if !ready.value {
        break;
      }
      approvedTag, prior := Some(nextTag), nextTag;
      k := i + 1;
    }
    if approvedTag == Some(nextTags[|nextTags|-1]) {
      return Answer(approvedTag), k;
    } else {
      return Answer(None), k;
    }
  }

  /** The commits some call found approved on the way through the first k tags. */
  ghost predicate Vouched(repo: Repo, conf: Conf, tagCommit: TagCommits, tags: seq<Tag>, prior: Tag,
                          answers: Tag -> TagAnswers, k: nat, c: Oid)
    requires Resolves(repo, tagCommit, [prior] + tags) && k <= |tags|
  {
    exists i :: 0 <= i < k && VouchedAt(repo, conf, tagCommit, tags, prior, answers, i, c)
  }

  ghost predicate VouchedAt(repo: Repo, conf: Conf, tagCommit: TagCommits, tags: seq<Tag>, prior: Tag,
                            answers: Tag -> TagAnswers, i: nat, c: Oid)
    requires Resolves(repo, tagCommit, [prior] + tags) && i < |tags|
  {
    ResolvesAt(repo, tagCommit, tags, prior, i);
    && c in Range(repo, tagCommit[PriorOf(tags, prior, i)], tagCommit[tags[i]])
    && Cleared(answers(tags[i]).evidence(c), tags[i], conf)
  }

  lemma ResolvesAt(repo: Repo, tagCommit: TagCommits, tags: seq<Tag>, prior: Tag, i: nat)
    requires Resolves(repo, tagCommit, [prior] + tags) && i <= |tags|
    ensures PriorOf(tags, prior, i) in tagCommit && tagCommit[PriorOf(tags, prior, i)] in repo.parents
    ensures i < |tags| ==> tags[i] in tagCommit && tagCommit[tags[i]] in repo.parents
  {
  }

  lemma ApprovedCleared(ev: Evidence, nextTag: Tag, conf: Conf)
    ensures Classify(ev, nextTag, conf) == Approved ==> Cleared(ev, nextTag, conf)
  {
  }

  /** Ranges telescope: a commit of the last of k ready tags that the prior tag
      does not have was found approved for one of the k tags. */
  lemma {:induction false} Telescope(repo: Repo, conf: Conf, tagCommit: TagCommits, tags: seq<Tag>, prior: Tag,
                                     answers: Tag -> TagAnswers, k: nat, c: Oid)
    requires Resolves(repo, tagCommit, [prior] + tags) && k <= |tags|
    requires forall i :: 0 <= i < k ==> ReadyAt(repo, conf, tagCommit, tags, prior, answers, i)
    requires PriorOf(tags, prior, k) in tagCommit && tagCommit[PriorOf(tags, prior, k)] in repo.parents
    requires prior in tagCommit && tagCommit[prior] in repo.parents
    requires c in History(repo, tagCommit[PriorOf(tags, prior, k)]) && c !in History(repo, tagCommit[prior])
    ensures Vouched(repo, conf, tagCommit, tags, prior, answers, k, c)
  {
    if k > 0 {
      ResolvesAt(repo, tagCommit, tags, prior, k-1);
      assert ReadyAt(repo, conf, tagCommit, tags, prior, answers, k-1);
      if c in History(repo, tagCommit[PriorOf(tags, prior, k-1)]) {
        Telescope(repo, conf, tagCommit, tags, prior, answers, k-1, c);
        var i :| 0 <= i < k-1 && VouchedAt(repo, conf, tagCommit, tags, prior, answers, i, c);
      } else {
        var from, to := tagCommit[PriorOf(tags, prior, k-1)], tagCommit[tags[k-1]];
        var classes := Classes(Range(repo, from, to), tags[k-1], conf, answers(tags[k-1]).evidence);
        assert c in classes && classes[c] == Approved;
        ApprovedCleared(answers(tags[k-1]).evidence(c), tags[k-1], conf);
        assert VouchedAt(repo, conf, tagCommit, tags, prior, answers, k-1, c);
      }
    }
  }

  // ------------------------------------------------------------ the common tag

  /** `describe` names a release tag in the history of the commit. */
  ghost predicate DescribesHistory(repo: Repo, tagCommit: TagCommits, describe: Oid -> Reply<Tag>) {
    forall c :: c in repo.parents && describe(c).Answer? ==>
                  describe(c).value in tagCommit && tagCommit[describe(c).value] in History(repo, c)
  }

  ghost predicate NotBelow(parse: Parser, prefix: string, u: Tag, t: Tag) {
    && TagToSemver(parse, t, prefix).Some? && TagToSemver(parse, u, prefix).Some?
    && !Below(parse, prefix, u, t)
  }

  /** Tags are ancestry-ordered by version: no tag lies outside the history of a tag not below it. */
  ghost predicate AncestryOrdered(repo: Repo, tagCommit: TagCommits, parse: Parser, prefix: string) {
    forall t, u :: t in tagCommit && u in tagCommit && tagCommit[u] in repo.parents && NotBelow(parse, prefix, u, t) ==>
                     tagCommit[t] in History(repo, tagCommit[u])
  }

  function VersionOf(d: Reply<Tag>, parse: Parser, prefix: string): Option<Version> {
    match d
    case Failed => None
    case Answer(t) => TagToSemver(parse, t, prefix)
  }

  /** The tag, as printed from its version, describes the node, and no node has an earlier one. */
  ghost predicate EarliestAt(lastApply: map<Host, Oid>, describe: Oid -> Reply<Tag>, parse: Parser, prefix: string,
                             t: Tag, h: Host)
  {
    && h in lastApply && VersionOf(describe(lastApply[h]), parse, prefix).Some?
    && var v := VersionOf(describe(lastApply[h]), parse, prefix).value;
       && t == SemverToOrig(v, prefix)
       && (forall k :: k in lastApply ==>
                         VersionOf(describe(lastApply[k]), parse, prefix).Some?
                         && !LessThan(VersionOf(describe(lastApply[k]), parse, prefix).value, v))
  }

  /** The tags that describe the nodes; each commit is described once. */
  method TagsOfNodes(lastApply: map<Host, Oid>, describe: Oid -> Reply<Tag>) returns (r: Reply<set<Tag>>)
    ensures r.Failed? <==> exists h :: h in lastApply && describe(lastApply[h]).Failed?
    ensures r.Answer? ==> forall t :: t in r.value <==>
              exists h :: h in lastApply && describe(lastApply[h]) == Answer(t)
    ensures r.Answer? ==> (r.value == {} <==> lastApply == map[])
  {
    var tagNodes: set<Tag> := {};
    var tagCache: map<Oid, Tag> := map[];
    var hosts := lastApply.Keys;
    while hosts != {}
      invariant hosts <= lastApply.Keys
      invariant forall c :: c in tagCache ==> describe(c) == Answer(tagCache[c])
      invariant forall h :: h in lastApply.Keys - hosts ==>
                              describe(lastApply[h]).Answer? && describe(lastApply[h]).value in tagNodes
      invariant forall t :: t in tagNodes ==> exists h :: h in lastApply && describe(lastApply[h]) == Answer(t)
      decreases |hosts|
    {
      var host :| host in hosts;
      hosts := hosts - {host};
      var c := lastApply[host];
      if c !in tagCache {
        var d := describe(c);
        if d.Failed? { return Failed; }
        tagCache := tagCache[c := d.value];
      }
      tagNodes := tagNodes + {tagCache[c]};
    }
    if lastApply.Keys != {} {
      ghost var h :| h in lastApply.Keys;
      assert describe(lastApply[h]).value in tagNodes;
    }
    return Answer(tagNodes);
  }

  /** The earliest of the tags that describe the nodes; none without nodes. */
  method CommonAncestorTag(lastApply: map<Host, Oid>, describe: Oid -> Reply<Tag>, parse: Parser, prefix: string)
    returns (r: Reply<Option<Tag>>, ghost at: Host)
    ensures r.Failed? <==> exists h :: h in lastApply && VersionOf(describe(lastApply[h]), parse, prefix).None?
    ensures r == Answer(None) <==> lastApply == map[]
    ensures r.Answer? && r.value.Some? ==> EarliestAt(lastApply, describe, parse, prefix, r.value.value, at)
  {
    at := "";
    var tagNodes := TagsOfNodes(lastApply, describe);
    if tagNodes.Failed? { return Failed, at; }
    if tagNodes.value == {} {
      return Answer(None), at;
    }
    var tags := ListOf(tagNodes.value);
    var tagSet := SortedSemVers(parse, tags, prefix);
    if tagSet.Failed? {
      var t :| t in tags && TagToSemver(parse, t, prefix).None?;
      var h :| h in lastApply && describe(lastApply[h]) == Answer(t);
      return Failed, at;
    }
    at := EarliestNode(lastApply, describe, parse, prefix, tags, tagSet.value);
    return Answer(Some(SemverToOrig(tagSet.value[0], prefix))), at;
  }

  lemma EarliestNode(lastApply: map<Host, Oid>, describe: Oid -> Reply<Tag>, parse: Parser, prefix: string,
                     tags: seq<Tag>, sorted: seq<Version>) returns (at: Host)
    requires forall h :: h in lastApply ==> describe(lastApply[h]).Answer?
    requires forall t :: t in tags <==> exists h :: h in lastApply && describe(lastApply[h]) == Answer(t)
    requires tags != [] && IsSorting(parse, tags, prefix, sorted)
    ensures sorted != [] && EarliestAt(lastApply, describe, parse, prefix, SemverToOrig(sorted[0], prefix), at)
    ensures forall h :: h in lastApply ==> VersionOf(describe(lastApply[h]), parse, prefix).Some?
  {
    SortingMembers(parse, tags, prefix, sorted);
    assert sorted[0] in sorted;
    var t :| t in tags && TagToSemver(parse, t, prefix) == Some(sorted[0]);
    at :| at in lastApply && describe(lastApply[at]) == Answer(t);
    forall h | h in lastApply
      ensures VersionOf(describe(lastApply[h]), parse, prefix).Some?
      ensures !LessThan(VersionOf(describe(lastApply[h]), parse, prefix).value, sorted[0])
    {
      var u := describe(lastApply[h]).value;
      assert u in tags;
      var i :| 0 <= i < |sorted| && sorted[i] == TagToSemver(parse, u, prefix).value;
    }
  }

  // ------------------------------------------------------------ release safety

  /** The common tag lies in the history of what every node last applied. */
  lemma CommonTagInHistory(repo: Repo, tagCommit: TagCommits, describe: Oid -> Reply<Tag>, parse: Parser,
                           prefix: string, lastApply: map<Host, Oid>, common: Tag, at: Host, h: Host)
    requires KeepsOriginal(parse) && DescribesHistory(repo, tagCommit, describe)
    requires AncestryOrdered(repo, tagCommit, parse, prefix)
    requires forall t :: t in tagCommit ==> TagPrefix(prefix) <= t
    requires EarliestAt(lastApply, describe, parse, prefix, common, at)
    requires lastApply[at] in repo.parents && h in lastApply && lastApply[h] in repo.parents
    ensures common in tagCommit && tagCommit[common] in History(repo, lastApply[h])
  {
    var t, u := describe(lastApply[at]).value, describe(lastApply[h]).value;
    PrefixRoundTrip(parse, t, prefix);
    assert NotBelow(parse, prefix, u, common);
    HistoryTransitive(repo, tagCommit[common], tagCommit[u], lastApply[h]);
  }

  /** Release safety: everything the released tag brings to a node that was
      active when the common tag was computed was found approved by the run. */
  lemma ReleaseSafety(repo: Repo, conf: Conf, tagCommit: TagCommits, tags: seq<Tag>, common: Tag,
                      answers: Tag -> TagAnswers, k: nat, lastApply: Oid, c: Oid)
    requires Resolves(repo, tagCommit, [common] + tags) && 0 < k <= |tags|
    requires forall i :: 0 <= i < k ==> ReadyAt(repo, conf, tagCommit, tags, common, answers, i)
    requires tags[k-1] in tagCommit && tagCommit[tags[k-1]] in repo.parents
    requires common in tagCommit && lastApply in repo.parents && tagCommit[common] in History(repo, lastApply)
    requires c in History(repo, tagCommit[tags[k-1]]) && c !in History(repo, lastApply)
    ensures Vouched(repo, conf, tagCommit, tags, common, answers, k, c)
  {
    if c in History(repo, tagCommit[common]) {
      HistoryTransitive(repo, c, tagCommit[common], lastApply);
    }
    Telescope(repo, conf, tagCommit, tags, common, answers, k, c);
  }

  /** The commit belongs to the tag, its report is on disk, and a change in the
      report has the consent of an admin or of an owner who is no author of the
      commit, unless issues are closed without consent. */
  ghost predicate Reviewed(ev: Evidence, nextTag: Tag, conf: Conf) {
    && Assigned(ev, nextTag) && ev.stored.Stored?
    && forall own :: own in ev.stored.report.resources ==>
                       || conf.autoCloseIssues
                       || (ev.people.Answer? && (ByAdmin(ev.people.value, conf) || ByOwnerOf(own, ev.people.value)))
  }

  lemma VouchedReviewed(ev: Evidence, nextTag: Tag, conf: Conf)
    requires Cleared(ev, nextTag, conf)
    ensures Reviewed(ev, nextTag, conf)
  {
    hide ByOwnerOf, Consent;
    if !conf.autoCloseIssues && ev.stored.report.resources != [] {
      ClearedReviewed(ev, nextTag, conf);
    }
  }

  /** What release safety means: every commit a release brings to such a node
      was reviewed for one of the tags; when it needed consent, somebody gave
      it, or it shows nothing but evaluation errors. */
  lemma ReleaseReviewed(repo: Repo, conf: Conf, tagCommit: TagCommits, tags: seq<Tag>, common: Tag,
                        answers: Tag -> TagAnswers, k: nat, lastApply: Oid, c: Oid) returns (i: nat)
    requires Resolves(repo, tagCommit, [common] + tags) && 0 < k <= |tags|
    requires forall i :: 0 <= i < k ==> ReadyAt(repo, conf, tagCommit, tags, common, answers, i)
    requires tags[k-1] in tagCommit && tagCommit[tags[k-1]] in repo.parents
    requires common in tagCommit && lastApply in repo.parents && tagCommit[common] in History(repo, lastApply)
    requires c in History(repo, tagCommit[tags[k-1]]) && c !in History(repo, lastApply)
    ensures i < k && VouchedAt(repo, conf, tagCommit, tags, common, answers, i, c)
    ensures Reviewed(answers(tags[i]).evidence(c), tags[i], conf)
    ensures answers(tags[i]).evidence(c).issue == Answer(Some(Issue(Some(tags[i]))))
    ensures var ev := answers(tags[i]).evidence(c);
            NeedsConsent(ev, conf) ==>
              && ev.people.Answer?
              && (BySomebody(ev.stored.report.resources, ev.people.value, conf)
                  <==> ev.stored.report.resources != [] || ByAdmin(ev.people.value, conf))
  {
    hide Cleared, ReadyAt, BySomebody, Reviewed;
    ReleaseSafety(repo, conf, tagCommit, tags, common, answers, k, lastApply, c);
    i :| 0 <= i < k && VouchedAt(repo, conf, tagCommit, tags, common, answers, i, c);
    VouchedReviewed(answers(tags[i]).evidence(c), tags[i], conf);
    ReviewedStored(answers(tags[i]).evidence(c), tags[i], conf);
    if NeedsConsent(answers(tags[i]).evidence(c), conf) {
      ClearedBySomebody(answers(tags[i]).evidence(c), tags[i], conf);
    }
  }

  lemma ReviewedStored(ev: Evidence, nextTag: Tag, conf: Conf)
    requires Reviewed(ev, nextTag, conf)
    ensures ev.stored.Stored? && ev.issue == Answer(Some(Issue(Some(nextTag))))
  {
  }

  /** A run vouches for no commit the common tag already has, when tags ascend from it. */
  lemma VouchedIsNew(repo: Repo, conf: Conf, tagCommit: TagCommits, tags: seq<Tag>, common: Tag,
                     answers: Tag -> TagAnswers, k: nat, c: Oid)
    requires Resolves(repo, tagCommit, [common] + tags) && k <= |tags|
    requires common in tagCommit && tagCommit[common] in repo.parents
    requires forall t :: t in tags ==> t in tagCommit && tagCommit[t] in repo.parents
                                       && tagCommit[common] in History(repo, tagCommit[t])
    requires Vouched(repo, conf, tagCommit, tags, common, answers, k, c)
    ensures c !in History(repo, tagCommit[common])
  {
    var i :| 0 <= i < k && VouchedAt(repo, conf, tagCommit, tags, common, answers, i, c);
    if c in History(repo, tagCommit[common]) && i > 0 {
      assert tags[i-1] in tags;
      HistoryTransitive(repo, c, tagCommit[common], tagCommit[tags[i-1]]);
    }
  }

  /** For any node whatever, active at the time or not: the run vouches for all
      that the tag brings to it exactly when the node has the common tag. */
  lemma ReleaseSafetyExact(repo: Repo, conf: Conf, tagCommit: TagCommits, tags: seq<Tag>, common: Tag,
                           answers: Tag -> TagAnswers, k: nat, lastApply: Oid)
    requires Resolves(repo, tagCommit, [common] + tags) && 0 < k <= |tags|
    requires forall i :: 0 <= i < k ==> ReadyAt(repo, conf, tagCommit, tags, common, answers, i)
    requires common in tagCommit && tagCommit[common] in repo.parents && lastApply in repo.parents
    requires forall t :: t in tags ==> t in tagCommit && tagCommit[t] in repo.parents
                                       && tagCommit[common] in History(repo, tagCommit[t])
    ensures tags[k-1] in tags
    ensures (forall c :: c in History(repo, tagCommit[tags[k-1]]) && c !in History(repo, lastApply) ==>
                           Vouched(repo, conf, tagCommit, tags, common, answers, k, c))
        <==> tagCommit[common] in History(repo, lastApply)
  {
    assert tags[k-1] in tags;
    var base := tagCommit[common];
    if base in History(repo, lastApply) {
      forall c | c in History(repo, tagCommit[tags[k-1]]) && c !in History(repo, lastApply)
        ensures Vouched(repo, conf, tagCommit, tags, common, answers, k, c)
      {
        ReleaseSafety(repo, conf, tagCommit, tags, common, answers, k, lastApply, c);
      }
    } else if Vouched(repo, conf, tagCommit, tags, common, answers, k, base) {
      VouchedIsNew(repo, conf, tagCommit, tags, common, answers, k, base);
    }
  }
}
