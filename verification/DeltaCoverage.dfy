/** No change slips between delta noops: what a noop reports is reported by the
    delta of that commit or of a not yet applied ancestor of it. */
module DeltaCoverage {
  import opened Wrappers
  import opened CommitGraph
  import opened NoopReports

  function NoopOnlyOf(c: Oid, t: Title, e: Event): Oid -> Report {
    (d: Oid) => if d == c then EMPTY_REPORT.(resources := map[t := ResourceStatus("", "", "", 0, [], [e])])
                else EMPTY_REPORT
  }

  /** One node among the nodes of a set, and the noops it takes. Last applies
      stay fixed and no noop fails. */
  datatype Setting = Setting(repo: Repo, lastApply: map<Host, Oid>, host: Host,
                             noopOf: Oid -> Report, ignored: IgnoreRule)
  {
    ghost predicate Valid() {
      && host in lastApply
      && forall h :: h in lastApply ==> lastApply[h] in repo.parents && lastApply[h] != ZERO_OID
    }

    predicate InAllLineages(c: Oid)
      requires Valid() && c in repo.parents
    {
      forall h :: h in lastApply ==> CommitInNodeLineage(repo, c, lastApply[h])
    }

    predicate Applied(c: Oid)
      requires Valid()
    {
      CommitAlreadyApplied(repo, lastApply[host], c)
    }

    /** The noop of a commit, or an empty report when the node already has the commit. */
    function UsedReport(c: Oid): Report
      requires Valid()
    {
      if Applied(c) then EMPTY_REPORT else noopOf(c)
    }

    /** A parent outside the lineage of some node is replaced by an empty report. */
    function ParentReport(p: Oid): Report
      requires Valid() && p in repo.parents
    {
      if InAllLineages(p) then UsedReport(p) else EMPTY_REPORT
    }

    function Priors(c: Oid): (r: seq<Report>)
      requires Valid() && c in repo.parents
    {
      seq(|repo.parents[c]|, i requires 0 <= i < |repo.parents[c]| => ParentReport(repo.parents[c][i]))
    }

    function Delta(c: Oid): map<Title, DeltaResource>
      requires Valid() && c in repo.parents
    {
      Subtract(UsedReport(c), Priors(c), ignored)
    }

    /** Commits a delta is made for: in every lineage and not yet on the node. */
    ghost predicate Pending(c: Oid)
      requires Valid()
    {
      c in repo.parents && InAllLineages(c) && !Applied(c)
    }

    ghost predicate HasEvent(c: Oid, t: Title, e: Event) {
      t in noopOf(c).resources && e in noopOf(c).resources[t].events
    }

    /** From c, parent by pending parent, down to the origin, every noop has the event. */
    ghost predicate EventTrail(c: Oid, origin: Oid, t: Title, e: Event)
      requires Valid()
      decreases if c in repo.parents then repo.generation[c] else 0
    {
      && Pending(c) && HasEvent(c, t, e)
      && (c == origin || exists p :: p in repo.parents[c] && EventTrail(p, origin, t, e))
    }

    ghost predicate LogTrail(c: Oid, origin: Oid, l: Log)
      requires Valid()
      decreases if c in repo.parents then repo.generation[c] else 0
    {
      && Pending(c) && l in noopOf(c).logs
      && (c == origin || exists p :: p in repo.parents[c] && LogTrail(p, origin, l))
    }

    ghost predicate EventInDelta(c: Oid, t: Title, e: Event)
      requires Valid() && c in repo.parents
    {
      t in Delta(c) && e in Delta(c)[t].events
    }

    ghost predicate LogInDelta(c: Oid, l: Log)
      requires Valid() && c in repo.parents
    {
      l.source in Delta(c) && l in Delta(c)[l.source].logs
    }

    /** A parent takes an event away exactly when it is pending and has it. */
    lemma ParentHasEvent(c: Oid, t: Title, e: Event)
      requires Valid() && c in repo.parents
      ensures EventInPriors(e, t, Priors(c)) <==> exists p :: p in repo.parents[c] && Pending(p) && HasEvent(p, t, e)
    {
      hide InAllLineages, Applied;
      var ps := repo.parents[c];
      if i :| 0 <= i < |Priors(c)| && t in Priors(c)[i].resources && e in Priors(c)[i].resources[t].events {
        assert ps[i] in ps && Pending(ps[i]) && HasEvent(ps[i], t, e);
      }
      if p :| p in ps && Pending(p) && HasEvent(p, t, e) {
        var i :| 0 <= i < |ps| && ps[i] == p;
        assert Priors(c)[i] == noopOf(p);
      }
    }

    lemma ParentHasLog(c: Oid, l: Log)
      requires Valid() && c in repo.parents
      ensures LogInPriors(l, Priors(c)) <==> exists p :: p in repo.parents[c] && Pending(p) && l in noopOf(p).logs
    {
      hide InAllLineages, Applied;
      var ps := repo.parents[c];
      if i :| 0 <= i < |Priors(c)| && l in Priors(c)[i].logs {
        assert ps[i] in ps && Pending(ps[i]);
      }
      if p :| p in ps && Pending(p) && l in noopOf(p).logs {
        var i :| 0 <= i < |ps| && ps[i] == p;
        assert Priors(c)[i] == noopOf(p);
      }
    }

    /** Every event of a pending commit, unless its resource is ignored, is in
        the delta of that commit or of a pending ancestor the event came from. */
    lemma {:induction false} EventsCovered(c: Oid, t: Title, e: Event) returns (origin: Oid)
      requires Valid() && Pending(c) && HasEvent(c, t, e) && ignored(t) == Answer(false)
      ensures origin in repo.parents && origin in History(repo, c) && EventTrail(c, origin, t, e)
      ensures Pending(origin) && EventInDelta(origin, t, e)
      decreases repo.generation[c]
    {
      ParentHasEvent(c, t, e);
      EventSurvives(UsedReport(c), Priors(c), ignored, t, e);
      if EventInPriors(e, t, Priors(c)) {
        var p :| p in repo.parents[c] && Pending(p) && HasEvent(p, t, e);
        origin := EventsCovered(p, t, e);
      } else {
        origin := c;
      }
    }

    /** Some pending commit in the history shows the event in its delta. */
    ghost predicate Covered(c: Oid, t: Title, e: Event)
      requires Valid() && c in repo.parents
    {
      exists d :: d in History(repo, c) && Pending(d) && EventInDelta(d, t, e)
    }

    /** A commit is covered exactly when a pending commit in its history, be it
        itself, has the event: what only commits outside some lineage have is lost. */
    lemma CoveredIfPending(c: Oid, t: Title, e: Event)
      requires Valid() && c in repo.parents && ignored(t) == Answer(false)
      ensures Covered(c, t, e) <==> exists d :: d in History(repo, c) && Pending(d) && HasEvent(d, t, e)
    {
      hide HasEvent, EventInDelta, InAllLineages;
      if d :| d in History(repo, c) && Pending(d) && EventInDelta(d, t, e) {
        InDeltaHas(d, t, e);
      }
      if d :| d in History(repo, c) && Pending(d) && HasEvent(d, t, e) {
        var origin := EventsCovered(d, t, e);
        HistoryTransitive(repo, origin, d, c);
      }
    }

    lemma InDeltaHas(d: Oid, t: Title, e: Event)
      requires Valid() && Pending(d) && EventInDelta(d, t, e)
      ensures HasEvent(d, t, e)
    {
      EventSurvives(UsedReport(d), Priors(d), ignored, t, e);
    }

    /** No other pending commit in the history has the event. */
    ghost predicate NewWith(c: Oid, t: Title, e: Event)
      requires Valid() && c in repo.parents
    {
      HasEvent(c, t, e) && forall d :: d in History(repo, c) && Pending(d) && HasEvent(d, t, e) ==> d == c
    }

    lemma NewInDelta(c: Oid, t: Title, e: Event)
      requires Valid() && Pending(c) && NewWith(c, t, e) && ignored(t) == Answer(false)
      ensures EventInDelta(c, t, e)
    {
      hide InAllLineages, Applied;
      var origin := EventsCovered(c, t, e);
      assert HasEvent(origin, t, e) by { InDeltaHas(origin, t, e); }
    }

    /** Whatever the noops are, all events of a commit the node does not have are
        covered if and only if the commit is in the lineage of every node. */
    lemma CoveredExactly(c: Oid, t: Title)
      requires Valid() && c in repo.parents && !Applied(c) && ignored(t) == Answer(false)
      ensures (forall noops: Oid -> Report, e :: this.(noopOf := noops).HasEvent(c, t, e) ==>
                                                   this.(noopOf := noops).Covered(c, t, e))
          <==> InAllLineages(c)
    {
      hide InAllLineages, Applied, EventInDelta;
      if InAllLineages(c) {
        forall noops: Oid -> Report, e | this.(noopOf := noops).HasEvent(c, t, e)
          ensures this.(noopOf := noops).Covered(c, t, e)
        {
          var s := this.(noopOf := noops);
          SamePending(noops, c);
          s.CoveredIfPending(c, t, e);
        }
      } else {
        var e := Event("", "", "", "", "", "", false);
        var noops := NoopOnlyOf(c, t, e);
        var s := this.(noopOf := noops);
        s.CoveredIfPending(c, t, e);
        SamePending(noops, c);
        assert s.HasEvent(c, t, e);
        forall d ensures !(d in History(repo, c) && s.Pending(d) && s.HasEvent(d, t, e)) {
        }
      }
    }

    lemma SamePending(noops: Oid -> Report, c: Oid)
      requires Valid()
      ensures this.(noopOf := noops).Valid() && (this.(noopOf := noops).Pending(c) <==> Pending(c))
    {
      hide CommitInNodeLineage;
    }

    /** What is pending below a commit outside the lineage of some node is on
        that node already: reports show other nodes only what this node has. */
    lemma PendingBelow(c: Oid, d: Oid, k: Host)
      requires Valid() && c in repo.parents && k in lastApply && !CommitInNodeLineage(repo, c, lastApply[k])
      requires d in History(repo, c) && Pending(d)
      ensures d in History(repo, lastApply[k])
    {
      assert CommitInNodeLineage(repo, d, lastApply[k]);
      if d !in History(repo, lastApply[k]) {
        HistoryTransitive(repo, lastApply[k], d, c);
      }
    }

    /** A log of a pending commit whose source is not ignored. */
    ghost predicate PendingLog(c: Oid, l: Log)
      requires Valid()
    {
      Pending(c) && l in noopOf(c).logs && ignored(l.source) == Answer(false)
    }

    /** A log is attached to the resource it names: in the history of the commit
        it must be listed where the log first shows. */
    ghost predicate NewLogsListed(c: Oid)
      requires Valid() && c in repo.parents
    {
      forall d, l :: d in History(repo, c) && PendingLog(d, l) && !LogInPriors(l, Priors(d)) ==>
                       l.source in noopOf(d).resources
    }

    ghost predicate LogCovered(c: Oid, l: Log)
      requires Valid()
    {
      exists origin :: origin in repo.parents && LogTrail(c, origin, l) && LogInDelta(origin, l)
    }

    lemma {:induction false} LogCoverage(c: Oid, l: Log) returns (origin: Oid)
      requires Valid() && PendingLog(c, l) && NewLogsListed(c)
      ensures origin in repo.parents && origin in History(repo, c) && LogTrail(c, origin, l)
      ensures Pending(origin) && LogInDelta(origin, l)
      decreases repo.generation[c]
    {
      ParentHasLog(c, l);
      LogSurvives(UsedReport(c), Priors(c), ignored, l.source, l);
      if LogInPriors(l, Priors(c)) {
        var p :| p in repo.parents[c] && Pending(p) && l in noopOf(p).logs;
        ParentHistory(repo, p, c);
        origin := LogCoverage(p, l);
      } else {
        origin := c;
      }
    }

    /** All logs in the history of a commit are covered exactly when the new
        ones among them name listed resources. */
    lemma LogsCovered(c: Oid)
      requires Valid() && c in repo.parents
      ensures NewLogsListed(c) <==> forall d, l :: d in History(repo, c) && PendingLog(d, l) ==> LogCovered(d, l)
    {
      if NewLogsListed(c) {
        forall d, l | d in History(repo, c) && PendingLog(d, l)
          ensures LogCovered(d, l)
        {
          ListedBelow(c, d);
          var origin := LogCoverage(d, l);
        }
      } else {
        var d, l :| d in History(repo, c) && PendingLog(d, l) && !LogInPriors(l, Priors(d))
                    && l.source !in noopOf(d).resources;
        NewLogUncovered(d, l);
      }
    }

    lemma ListedBelow(c: Oid, d: Oid)
      requires Valid() && c in repo.parents && d in History(repo, c) && NewLogsListed(c)
      ensures NewLogsListed(d)
    {
      forall a, l | a in History(repo, d) && PendingLog(a, l) && !LogInPriors(l, Priors(a))
        ensures l.source in noopOf(a).resources
      {
        HistoryTransitive(repo, a, d, c);
      }
    }

    /** No trail leads from a commit whose parents do not take the log away. */
    lemma TrailEnds(d: Oid, origin: Oid, l: Log)
      requires Valid() && d in repo.parents && !LogInPriors(l, Priors(d)) && LogTrail(d, origin, l)
      ensures origin == d
    {
      hide InAllLineages, Applied, Priors;
      ParentHasLog(d, l);
      if p :| p in repo.parents[d] && LogTrail(p, origin, l) {
        assert false;
      }
    }

    /** A new log that names no listed resource is in no delta that could show it. */
    lemma NewLogUncovered(d: Oid, l: Log)
      requires Valid() && PendingLog(d, l) && !LogInPriors(l, Priors(d)) && l.source !in noopOf(d).resources
      ensures !LogCovered(d, l)
    {
      hide LogTrail, InAllLineages, Priors, Subtract;
      LogSurvives(UsedReport(d), Priors(d), ignored, l.source, l);
      forall origin | origin in repo.parents && LogTrail(d, origin, l) ensures !LogInDelta(origin, l) {
        TrailEnds(d, origin, l);
      }
    }
  }
}
