/** Puppet reports and the subtraction that leaves a commit its own changes.
    Reports are taken as normalised; events and logs are compared as values,
    which is what the shallow comparison does on two structs of one type. */
module NoopReports {
  import opened Wrappers
  import opened CommitGraph

  type Title = string

  datatype Event = Event(property: string, previousValue: string, desiredValue: string, message: string,
                         name: string, status: string, correctiveChange: bool)

  datatype Log = Log(level: string, message: string, source: string, file: string, line: int)

  /** `defineType` is the define type found in the containment path, if any. */
  datatype ResourceStatus = ResourceStatus(resourceType: string, defineType: string, file: string, line: int,
                                           containmentPath: seq<string>, events: seq<Event>)

  /** What a configuration version parses to; a commit unknown to the repository reads as dirty. */
  datatype ConfVersion = CleanVersion(oid: Oid) | DirtyVersion(dirtyOid: Oid) | UnparseableVersion

  datatype Report = Report(host: Host, configurationVersion: ConfVersion, failed: bool,
                           lastApplyVersion: ConfVersion, resources: map<Title, ResourceStatus>, logs: seq<Log>)

  const EMPTY_REPORT := Report("", UnparseableVersion, false, UnparseableVersion, map[], [])

  datatype DeltaResource = DeltaResource(title: Title, resourceType: string, defineType: string, file: string,
                                         line: int, containmentPath: seq<string>,
                                         events: seq<Event>, logs: seq<Log>)

  /** Whether a resource title is configured as ignored; some titles do not parse. */
  type IgnoreRule = Title -> Reply<bool>

  function Select<T>(s: seq<T>, keep: T -> bool): seq<T> {
    if s == [] then []
    else (if keep(s[0]) then [s[0]] else []) + Select(s[1..], keep)
  }

  lemma {:induction false} SelectAppend<T>(s: seq<T>, x: T, keep: T -> bool)
    ensures Select(s + [x], keep) == Select(s, keep) + if keep(x) then [x] else []
  {
    var last := if keep(x) then [x] else [];
    if s == [] {
      assert s + [x] == [x];
      SelectOn([x], keep);
    } else {
      var more, rest := s + [x], Select(s[1..], keep);
      SelectAppend(s[1..], x, keep);
      assert more[0] == s[0] && more[1..] == s[1..] + [x];
      SelectOn(more, keep);
      SelectOn(s, keep);
      Associates(if keep(s[0]) then [s[0]] else [], rest, last);
    }
  }

  lemma SelectOn<T>(s: seq<T>, keep: T -> bool)
    requires s != []
    ensures Select(s, keep) == (if keep(s[0]) then [s[0]] else []) + Select(s[1..], keep)
  {
  }

  lemma Associates<T>(a: seq<T>, b: seq<T>, c: seq<T>)
    ensures a + (b + c) == (a + b) + c
  {
  }

  lemma {:induction false} SelectMember<T>(s: seq<T>, keep: T -> bool, x: T)
    ensures x in Select(s, keep) <==> x in s && keep(x)
  {
    if s != [] { SelectMember(s[1..], keep, x); }
  }

  lemma {:induction false} SelectAgree<T>(s: seq<T>, keep: T -> bool, keep': T -> bool)
    requires forall i :: 0 <= i < |s| ==> keep(s[i]) == keep'(s[i])
    ensures Select(s, keep) == Select(s, keep')
  {
    if s != [] {
      assert forall i :: 0 <= i < |s[1..]| ==> s[1..][i] == s[i+1];
      SelectAgree(s[1..], keep, keep');
    }
  }

  lemma {:induction false} SelectTwice<T>(s: seq<T>, first: T -> bool, second: T -> bool, both: T -> bool)
    requires forall i :: 0 <= i < |s| ==> both(s[i]) == (first(s[i]) && second(s[i]))
    ensures Select(Select(s, first), second) == Select(s, both)
  {
    if s != [] {
      assert forall i :: 0 <= i < |s[1..]| ==> s[1..][i] == s[i+1];
      SelectTwice(s[1..], first, second, both);
      if first(s[0]) {
        assert ([s[0]] + Select(s[1..], first))[1..] == Select(s[1..], first);
      } else {
        assert [] + Select(s[1..], first) == Select(s[1..], first);
      }
    }
  }

  predicate EventInPriors(event: Event, title: Title, priors: seq<Report>) {
    exists i :: 0 <= i < |priors| && title in priors[i].resources && event in priors[i].resources[title].events
  }

  predicate LogInPriors(log: Log, priors: seq<Report>) {
    exists i :: 0 <= i < |priors| && log in priors[i].logs
  }

  function NewEvent(title: Title, priors: seq<Report>): Event -> bool {
    (event: Event) => !EventInPriors(event, title, priors)
  }

  function NewLog(title: Title, priors: seq<Report>): Log -> bool {
    (log: Log) => log.source == title && !LogInPriors(log, priors)
  }

  function DeltaEvents(noop: Report, title: Title, priors: seq<Report>): seq<Event>
    requires title in noop.resources
  {
    Select(noop.resources[title].events, NewEvent(title, priors))
  }

  function DeltaLogs(noop: Report, title: Title, priors: seq<Report>): seq<Log> {
    Select(noop.logs, NewLog(title, priors))
  }

  function InitDeltaResource(title: Title, r: ResourceStatus, events: seq<Event>, logs: seq<Log>): DeltaResource {
    DeltaResource(title, r.resourceType, r.defineType, r.file, r.line, r.containmentPath, events, logs)
  }

  predicate Kept(noop: Report, title: Title, priors: seq<Report>, ignored: IgnoreRule) {
    && title in noop.resources && ignored(title) == Answer(false)
    && (DeltaEvents(noop, title, priors) != [] || DeltaLogs(noop, title, priors) != [])
  }

  /** What is left of a noop once the priors are taken away, resource by resource. */
  function Subtract(noop: Report, priors: seq<Report>, ignored: IgnoreRule): map<Title, DeltaResource> {
    map t | t in noop.resources && Kept(noop, t, priors, ignored) ::
      InitDeltaResource(t, noop.resources[t], DeltaEvents(noop, t, priors), DeltaLogs(noop, t, priors))
  }

  method PriorEvent(event: Event, title: Title, priorCommitNoops: seq<Report>) returns (prior: bool)
    ensures prior == EventInPriors(event, title, priorCommitNoops)
    ensures prior <==> exists p :: p in priorCommitNoops && title in p.resources && event in p.resources[title].events
  {
    for i := 0 to |priorCommitNoops|
      invariant !EventInPriors(event, title, priorCommitNoops[..i])
    {
      var noop := priorCommitNoops[i];
      if title in noop.resources {
        var events := noop.resources[title].events;
        for j := 0 to |events|
          invariant event !in events[..j]
        {
          if event == events[j] {
            assert event in priorCommitNoops[i].resources[title].events;
            return true;
          }
        }
      }
    }
    return false;
  }

  method PriorLog(curLog: Log, priorCommitNoops: seq<Report>) returns (prior: bool)
    ensures prior == LogInPriors(curLog, priorCommitNoops)
    ensures prior <==> exists p :: p in priorCommitNoops && curLog in p.logs
  {
    for i := 0 to |priorCommitNoops|
      invariant !LogInPriors(curLog, priorCommitNoops[..i])
    {
      var logs := priorCommitNoops[i].logs;
      for j := 0 to |logs|
        invariant curLog !in logs[..j]
      {
        if curLog == logs[j] {
          assert curLog in priorCommitNoops[i].logs;
          return true;
        }
      }
    }
    return false;
  }

  method NewEventsOf(events: seq<Event>, title: Title, priors: seq<Report>) returns (deltaEvents: seq<Event>)
    ensures deltaEvents == Select(events, NewEvent(title, priors))
  {
    deltaEvents := [];
    for i := 0 to |events|
      invariant deltaEvents == Select(events[..i], NewEvent(title, priors))
    {
      SelectAppend(events[..i], events[i], NewEvent(title, priors));
      assert events[..i+1] == events[..i] + [events[i]];
      var prior := PriorEvent(events[i], title, priors);
      if !prior {
        deltaEvents := deltaEvents + [events[i]];
      }
    }
    assert events[..|events|] == events;
  }

  method NewLogsOf(logs: seq<Log>, title: Title, priors: seq<Report>) returns (deltaLogs: seq<Log>)
    ensures deltaLogs == Select(logs, NewLog(title, priors))
  {
    deltaLogs := [];
    for i := 0 to |logs|
      invariant deltaLogs == Select(logs[..i], NewLog(title, priors))
    {
      SelectAppend(logs[..i], logs[i], NewLog(title, priors));
      assert logs[..i+1] == logs[..i] + [logs[i]];
      if logs[i].source == title {
        var prior := PriorLog(logs[i], priors);
        if !prior {
          deltaLogs := deltaLogs + [logs[i]];
        }
      }
    }
    assert logs[..|logs|] == logs;
  }

  /** Go visits the resources in any order; an unparseable title is met whatever the order. */
  method SubtractNoops(commitNoop: Report, priorCommitNoops: seq<Report>, ignored: IgnoreRule)
    returns (r: Reply<map<Title, DeltaResource>>)
    ensures r.Failed? <==> exists t :: t in commitNoop.resources && ignored(t).Failed?
    ensures r.Answer? ==> r.value == Subtract(commitNoop, priorCommitNoops, ignored)
  {
    var deltaResources: map<Title, DeltaResource> := map[];
    var titles := commitNoop.resources.Keys;
    while titles != {}
      invariant titles <= commitNoop.resources.Keys
      invariant forall t :: t in commitNoop.resources.Keys - titles ==> ignored(t).Answer?
      invariant forall t :: t in deltaResources <==>
                              t !in titles && Kept(commitNoop, t, priorCommitNoops, ignored)
      invariant forall t :: t in deltaResources ==>
                              deltaResources[t] == Subtract(commitNoop, priorCommitNoops, ignored)[t]
      decreases |titles|
    {
      var title :| title in titles;
      titles := titles - {title};
      var rule := ignored(title);
      if rule.Failed? {
        return Failed;
      }
      if rule.value { continue; }
      var status := commitNoop.resources[title];
      var deltaEvents := NewEventsOf(status.events, title, priorCommitNoops);
      var deltaLogs := NewLogsOf(commitNoop.logs, title, priorCommitNoops);
      if |deltaEvents| > 0 || |deltaLogs| > 0 {
        deltaResources := deltaResources[title := InitDeltaResource(title, status, deltaEvents, deltaLogs)];
      }
    }
    assert deltaResources == Subtract(commitNoop, priorCommitNoops, ignored);
    return Answer(deltaResources);
  }

  /** An event survives exactly when the report has it, its resource is not
      ignored, and no prior has it under the same title. */
  lemma EventSurvives(noop: Report, priors: seq<Report>, ignored: IgnoreRule, t: Title, e: Event)
    ensures t in Subtract(noop, priors, ignored) && e in Subtract(noop, priors, ignored)[t].events
        <==> t in noop.resources && ignored(t) == Answer(false) && e in noop.resources[t].events
             && forall p :: p in priors && t in p.resources ==> e !in p.resources[t].events
    ensures EventInPriors(e, t, priors) <==>
            exists p :: p in priors && t in p.resources && e in p.resources[t].events
  {
    forall p | p in priors && t in p.resources && e in p.resources[t].events ensures EventInPriors(e, t, priors) {
      var i :| 0 <= i < |priors| && priors[i] == p;
      assert e in priors[i].resources[t].events;
    }
    if t in noop.resources {
      SelectMember(noop.resources[t].events, NewEvent(t, priors), e);
    }
  }

  /** A log survives exactly when its source is a listed resource that is not
      ignored and no prior has the log under any source. */
  lemma LogSurvives(noop: Report, priors: seq<Report>, ignored: IgnoreRule, t: Title, l: Log)
    ensures t in Subtract(noop, priors, ignored) && l in Subtract(noop, priors, ignored)[t].logs
        <==> t in noop.resources && ignored(t) == Answer(false) && l in noop.logs && l.source == t
             && forall p :: p in priors ==> l !in p.logs
    ensures LogInPriors(l, priors) <==> exists p :: p in priors && l in p.logs
  {
    forall p | p in priors && l in p.logs ensures LogInPriors(l, priors) {
      var i :| 0 <= i < |priors| && priors[i] == p;
      assert l in priors[i].logs;
    }
    SelectMember(noop.logs, NewLog(t, priors), l);
  }

  /** A resource is left when an event or a log of it is, and what is left of it
      has the place and the type that the noop gives the resource. */
  lemma DeltaCopies(noop: Report, priors: seq<Report>, ignored: IgnoreRule, t: Title)
    ensures t in Subtract(noop, priors, ignored) ==>
              && t in noop.resources && ignored(t) == Answer(false)
              && var d, r := Subtract(noop, priors, ignored)[t], noop.resources[t];
                 && d.title == t && d.resourceType == r.resourceType && d.defineType == r.defineType
                 && d.file == r.file && d.line == r.line && d.containmentPath == r.containmentPath
                 && (d.events != [] || d.logs != [])
    ensures t in noop.resources && ignored(t) == Answer(false) ==>
              (t in Subtract(noop, priors, ignored) <==>
               || (exists e :: e in noop.resources[t].events && !EventInPriors(e, t, priors))
               || (exists l :: l in noop.logs && l.source == t && !LogInPriors(l, priors)))
  {
    if t in noop.resources {
      var events, logs := DeltaEvents(noop, t, priors), DeltaLogs(noop, t, priors);
      forall e ensures e in events <==> e in noop.resources[t].events && !EventInPriors(e, t, priors) {
        SelectMember(noop.resources[t].events, NewEvent(t, priors), e);
      }
      forall l ensures l in logs <==> l in noop.logs && l.source == t && !LogInPriors(l, priors) {
        SelectMember(noop.logs, NewLog(t, priors), l);
      }
      assert events != [] ==> events[0] in events;
      assert logs != [] ==> logs[0] in logs;
    }
  }

  lemma SelectNone<T>(s: seq<T>, keep: T -> bool)
    requires forall i :: 0 <= i < |s| ==> !keep(s[i])
    ensures Select(s, keep) == []
  {
  }

  /** Subtracting a report from itself, among any priors, leaves nothing. */
  lemma SubtractSelf(noop: Report, priors: seq<Report>, ignored: IgnoreRule)
    requires noop in priors
    ensures Subtract(noop, priors, ignored) == map[]
  {
    var i :| 0 <= i < |priors| && priors[i] == noop;
    forall t | t in noop.resources ensures !Kept(noop, t, priors, ignored) {
      SelectNone(noop.resources[t].events, NewEvent(t, priors));
      SelectNone(noop.logs, NewLog(t, priors));
    }
  }

  lemma PriorsUnion(e: Event, l: Log, t: Title, ps: seq<Report>, qs: seq<Report>)
    ensures EventInPriors(e, t, ps + qs) <==> EventInPriors(e, t, ps) || EventInPriors(e, t, qs)
    ensures LogInPriors(l, ps + qs) <==> LogInPriors(l, ps) || LogInPriors(l, qs)
  {
    forall i | 0 <= i < |ps| ensures (ps + qs)[i] == ps[i] {}
    forall i | 0 <= i < |qs| ensures (ps + qs)[|ps| + i] == qs[i] {}
    forall i | 0 <= i < |ps + qs|
      ensures t in (ps + qs)[i].resources && e in (ps + qs)[i].resources[t].events ==>
                EventInPriors(e, t, ps) || EventInPriors(e, t, qs)
      ensures l in (ps + qs)[i].logs ==> LogInPriors(l, ps) || LogInPriors(l, qs)
    {
      var r := (ps + qs)[i];
      assert r == if i < |ps| then ps[i] else qs[i - |ps|];
    }
  }

  /** More priors only remove: each resource left was left before, with the
      events and logs the new priors do not have, in the same order. */
  lemma SubtractMore(noop: Report, ps: seq<Report>, qs: seq<Report>, ignored: IgnoreRule, t: Title)
    requires t in Subtract(noop, ps + qs, ignored)
    ensures t in Subtract(noop, ps, ignored)
    ensures var less, more := Subtract(noop, ps, ignored)[t], Subtract(noop, ps + qs, ignored)[t];
            more == less.(events := Select(less.events, NewEvent(t, qs)), logs := Select(less.logs, NewLog(t, qs)))
  {
    var events := noop.resources[t].events;
    forall i | 0 <= i < |events| ensures NewEvent(t, ps + qs)(events[i])
                                 == (NewEvent(t, ps)(events[i]) && NewEvent(t, qs)(events[i])) {
      PriorsUnion(events[i], Log("", "", "", "", 0), t, ps, qs);
    }
    SelectTwice(events, NewEvent(t, ps), NewEvent(t, qs), NewEvent(t, ps + qs));
    forall i | 0 <= i < |noop.logs| ensures NewLog(t, ps + qs)(noop.logs[i])
                                == (NewLog(t, ps)(noop.logs[i]) && NewLog(t, qs)(noop.logs[i])) {
      PriorsUnion(Event("", "", "", "", "", "", false), noop.logs[i], t, ps, qs);
    }
    SelectTwice(noop.logs, NewLog(t, ps), NewLog(t, qs), NewLog(t, ps + qs));
  }

  /** The result depends on the union of the priors only. */
  lemma SubtractUnion(noop: Report, ps: seq<Report>, qs: seq<Report>, ignored: IgnoreRule)
    requires forall e, t :: EventInPriors(e, t, ps) <==> EventInPriors(e, t, qs)
    requires forall l :: LogInPriors(l, ps) <==> LogInPriors(l, qs)
    ensures Subtract(noop, ps, ignored) == Subtract(noop, qs, ignored)
  {
    forall t | t in noop.resources
      ensures DeltaEvents(noop, t, ps) == DeltaEvents(noop, t, qs)
      ensures DeltaLogs(noop, t, ps) == DeltaLogs(noop, t, qs)
    {
      SelectAgree(noop.resources[t].events, NewEvent(t, ps), NewEvent(t, qs));
      SelectAgree(noop.logs, NewLog(t, ps), NewLog(t, qs));
    }
  }

  lemma {:induction false} SelectAll<T>(s: seq<T>, keep: T -> bool)
    requires forall i :: 0 <= i < |s| ==> keep(s[i])
    ensures Select(s, keep) == s
  {
    if s != [] {
      assert forall i :: 0 <= i < |s[1..]| ==> s[1..][i] == s[i+1];
      SelectAll(s[1..], keep);
    }
  }

  /** Subtracting nothing keeps every resource that is not ignored and has an
      event, whole, or a log of its own. */
  lemma SubtractNothing(noop: Report, ignored: IgnoreRule, t: Title)
    ensures t in Subtract(noop, [], ignored)
        <==> t in noop.resources && ignored(t) == Answer(false)
             && (noop.resources[t].events != [] || exists l :: l in noop.logs && l.source == t)
    ensures t in Subtract(noop, [], ignored) ==>
              Subtract(noop, [], ignored)[t].events == noop.resources[t].events
  {
    if t in noop.resources {
      SelectAll(noop.resources[t].events, NewEvent(t, []));
      if l :| l in noop.logs && l.source == t {
        SelectMember(noop.logs, NewLog(t, []), l);
      } else {
        SelectNone(noop.logs, NewLog(t, []));
      }
    }
  }
}
