/** Grouping the deltas of all nodes into resources with host lists; a resource
    prints the delta it was made from, for all its hosts. The loops
    delete from the maps they range over: a deleted entry is not visited later. */
module Grouping {
  import opened Wrappers
  import opened NoopReports

  type Deltas = map<Host, map<Title, DeltaResource>>

  /** An event and a log as a report shows them. */
  datatype GroupEvent = GroupEvent(previousValue: string, desiredValue: string)
  datatype GroupLog = GroupLog(level: string, message: string)

  /** One resource of a report. Its module is found by its containment path. */
  datatype GroupedResource = GroupedResource(title: Title, resourceType: string, defineType: string, diff: string,
                                             file: string, line: int, containmentPath: seq<string>, hosts: seq<Host>,
                                             events: seq<GroupEvent>, logs: seq<GroupLog>)

  /** Base64, for text that decodes. */
  type Decoder = string -> Option<string>

  function StripSymbol(s: string): (r: string)
    ensures ":" <= s ==> s == ":" + r
    ensures !(":" <= s) ==> r == s
  {
    if s != "" && s[0] == ':' then s[1..] else s
  }

  function EventShown(resourceType: string, e: Event, decode: Decoder): GroupEvent {
    GroupEvent(StripSymbol(e.previousValue),
               if resourceType == "File" && e.property == "content" then
                 match decode(e.desiredValue)
                 case Some(text) => text
                 case None => e.desiredValue
               else StripSymbol(e.desiredValue))
  }

  predicate IsDiff(l: Log): (r: bool)
    ensures r <==> |l.message| >= 3 && l.message[0] == l.message[1] == '@' && l.message[2] == ' '
  {
    "@@ " <= l.message
  }

  function DiffShown(l: Log): (r: string)
    ensures l.message == r || l.message == r + "\n"
    ensures l.message == r ==> r == "" || r[|r|-1] != '\n'
  {
    var m := l.message;
    if m != "" && m[|m|-1] == '\n' then m[..|m|-1] else m
  }

  function LogShown(l: Log): GroupLog {
    GroupLog(l.level, TrimNewlines(l.message))
  }

  function EventsShown(d: DeltaResource, decode: Decoder): (r: seq<GroupEvent>)
    ensures |r| == |d.events| && forall i :: 0 <= i < |r| ==> r[i] == EventShown(d.resourceType, d.events[i], decode)
  {
    seq(|d.events|, i requires 0 <= i < |d.events| => EventShown(d.resourceType, d.events[i], decode))
  }

  function LogsShown(logs: seq<Log>): seq<GroupLog> {
    if logs == [] then []
    else
      var last := logs[|logs|-1];
      LogsShown(logs[..|logs|-1]) + if IsDiff(last) then [] else [LogShown(last)]
  }

  /** Each diff replaces the one before it. */
  function LastDiff(logs: seq<Log>): string {
    if logs == [] then ""
    else if IsDiff(logs[|logs|-1]) then DiffShown(logs[|logs|-1])
    else LastDiff(logs[..|logs|-1])
  }

  /** What a report shows of the logs of a delta: its diffs are left out and the
      other logs come in order, without their trailing newlines. */
  lemma {:induction false} LogsInOrder(a: seq<Log>, b: seq<Log>)
    ensures LogsShown(a + b) == LogsShown(a) + LogsShown(b)
    decreases |b|
  {
    hide LogsShown;
    if b == [] {
      assert a + b == a;
      NoLogs();
    } else {
      var front, last := b[..|b|-1], b[|b|-1];
      assert a + b == (a + front) + [last] && b == front + [last];
      LogsInOrder(a, front);
      LastLog(a + front, last);
      LastLog(front, last);
      Associates(LogsShown(a), LogsShown(front), LogsShown([last]));
    }
  }

  lemma NoLogs()
    ensures LogsShown([]) == []
  {
  }

  lemma LastLog(logs: seq<Log>, l: Log)
    ensures LogsShown([l]) == if IsDiff(l) then [] else [GroupLog(l.level, TrimNewlines(l.message))]
    ensures LogsShown(logs + [l]) == LogsShown(logs) + LogsShown([l])
  {
    hide IsDiff, TrimNewlines;
    assert [l][..0] == [];
    assert (logs + [l])[..|logs|] == logs;
  }

  /** Of the diffs the last one is kept, without its newline. */
  lemma {:induction false} LastDiffKept(a: seq<Log>, l: Log, b: seq<Log>)
    requires IsDiff(l) && forall i :: 0 <= i < |b| ==> !IsDiff(b[i])
    ensures l.message == LastDiff(a + [l] + b) || l.message == LastDiff(a + [l] + b) + "\n"
    ensures LastDiff(b) == ""
    decreases |b|
  {
    hide IsDiff;
    var all := a + [l] + b;
    if b == [] {
      assert all == a + [l] && all[|all|-1] == l;
    } else {
      var front, last := b[..|b|-1], b[|b|-1];
      assert all[..|all|-1] == a + [l] + front && all[|all|-1] == last;
      LastDiffKept(a, l, front);
    }
  }

  /** What it shows of an event: symbols lose their colon, and the content of a
      file is decoded if it can be. */
  lemma EventAsShown(resourceType: string, e: Event, decode: Decoder)
    ensures var g := EventShown(resourceType, e, decode);
            && (e.previousValue == ":" + g.previousValue
                || (e.previousValue == g.previousValue && !(":" <= e.previousValue)))
            && (if resourceType == "File" && e.property == "content" then
                  g.desiredValue == match decode(e.desiredValue) case Some(text) => text case None => e.desiredValue
                else e.desiredValue == ":" + g.desiredValue
                     || (e.desiredValue == g.desiredValue && !(":" <= e.desiredValue)))
  {
  }

  /** What a report makes of one delta, for all the hosts of its group. */
  function Render(d: DeltaResource, hosts: seq<Host>, decode: Decoder): GroupedResource {
    GroupedResource(d.title, d.resourceType, d.defineType, LastDiff(d.logs), d.file, 0, d.containmentPath, hosts,
                    EventsShown(d, decode), LogsShown(d.logs))
  }

  /** The fields the shallow comparison looks at, the line aside. */
  datatype Key = Key(title: Title, resourceType: string, defineType: string, file: string)

  function KeyOf(d: DeltaResource): Key {
    Key(d.title, d.resourceType, d.defineType, d.file)
  }

  function GroupKey(g: GroupedResource): Key {
    Key(g.title, g.resourceType, g.defineType, g.file)
  }

  /** The node still holds a delta for the title. */
  ghost predicate At(deltas: Deltas, h: Host, t: Title) {
    h in deltas && t in deltas[h]
  }

  ghost function KeyAt(deltas: Deltas, h: Host, t: Title): Key
    requires At(deltas, h, t)
  {
    KeyOf(deltas[h][t])
  }

  ghost predicate TitlesMatch(deltas: Deltas) {
    forall h, t :: At(deltas, h, t) ==> deltas[h][t].title == t
  }

  /** The group holds the delta of a host for a title. */
  ghost predicate Holds(g: GroupedResource, h: Host, t: Title) {
    g.title == t && h in g.hosts
  }

  /** What grouping one target does: the group lists, once each, exactly the
      hosts whose delta has the key of the group, and takes those deltas away;
      the others keep their key. The group has lost its line. */
  ghost predicate Grouped(before: Deltas, after: Deltas, gr: GroupedResource) {
    && Distinct(gr.hosts) && gr.line == 0
    && (forall h :: h in gr.hosts <==> At(before, h, gr.title) && KeyAt(before, h, gr.title) == GroupKey(gr))
    && (forall h, t :: At(after, h, t) <==> At(before, h, t) && !Holds(gr, h, t))
    && (forall h, t :: At(after, h, t) ==> KeyAt(after, h, t) == KeyAt(before, h, t))
  }

  /** Some deltas are gone, and the others have lost their line at most. */
  ghost predicate OnlyLines(before: Deltas, after: Deltas) {
    forall h, t :: At(after, h, t) ==> At(before, h, t) && after[h][t].(line := 0) == before[h][t].(line := 0)
  }

  lemma OnlyLinesOn(a: Deltas, b: Deltas, c: Deltas)
    requires OnlyLines(a, b) && OnlyLines(b, c)
    ensures OnlyLines(a, c)
  {
  }

  /** One node once a target was grouped: its delta is taken if the key agrees, else only its line is lost. */
  function Visit(deltas: map<Title, DeltaResource>, title: Title, key: Key): map<Title, DeltaResource> {
    if title !in deltas then deltas
    else if KeyOf(deltas[title]) == key then deltas - {title}
    else deltas[title := deltas[title].(line := 0)]
  }

  predicate Matches(deltas: map<Title, DeltaResource>, title: Title, key: Key) {
    title in deltas && KeyOf(deltas[title]) == key
  }

  /** The delta resources of one commit, held per node and emptied by the grouping. */
  class DeltaStore {
    var deltas: Deltas
    const decode: Decoder

    constructor (deltas: Deltas, decode: Decoder)
      ensures this.deltas == deltas && this.decode == decode
    {
      this.deltas, this.decode := deltas, decode;
    }

    /** `target` is a pointer into the maps: zeroing the line of the "copies"
        zeroes the line of the originals, so the group never has a line. */
    method GroupResources(host: Host, title: Title) returns (gr: GroupedResource)
      requires TitlesMatch(deltas) && At(deltas, host, title)
      modifies this
      ensures deltas.Keys == old(deltas).Keys && TitlesMatch(deltas)
      ensures gr == Render(old(deltas)[host][title], gr.hosts, decode)
      ensures GroupKey(gr) == KeyAt(old(deltas), host, title)
      ensures Grouped(old(deltas), deltas, gr) && OnlyLines(old(deltas), deltas) && host in gr.hosts
      ensures gr.title == title
      ensures var d := old(deltas)[host][title];
              && gr.resourceType == d.resourceType && gr.defineType == d.defineType && gr.file == d.file
              && gr.line == 0 && gr.containmentPath == d.containmentPath
    {
      hide Visiting, Visit, OnlyLines;
      var target := deltas[host][title];
      var key := KeyOf(target);
      var nodeList: seq<Host> := [];
      var nodes := deltas.Keys;
      VisitStart(deltas, title, key);
      while nodes != {}
        invariant nodes <= deltas.Keys == old(deltas).Keys
        invariant Visiting(old(deltas), deltas, nodes, title, key, nodeList)
        decreases |nodes|
      {
        var h :| h in nodes;
        VisitStep(old(deltas), deltas, nodes, title, key, nodeList, h);
        nodes := nodes - {h};
        if title in deltas[h] {
          var d := deltas[h][title].(line := 0);
          if KeyOf(d) == key {
            nodeList := nodeList + [h];
            deltas := deltas[h := deltas[h] - {title}];
          } else {
            deltas := deltas[h := deltas[h][title := d]];
          }
        }
      }
      var events := ShowEvents(target);
      var diff, logs := ShowLogs(target.logs);
      gr := GroupedResource(target.title, target.resourceType, target.defineType, diff, target.file, 0,
                            target.containmentPath, nodeList, events, logs);
      VisitedGroups(old(deltas), deltas, gr);
      VisitedLines(old(deltas), deltas, title, key, nodeList);
    }

    method ShowEvents(target: DeltaResource) returns (events: seq<GroupEvent>)
      ensures events == EventsShown(target, decode)
    {
      events := [];
      for i := 0 to |target.events|
        invariant |events| == i
        invariant forall k :: 0 <= k < i ==> events[k] == EventShown(target.resourceType, target.events[k], decode)
      {
        var e := target.events[i];
        var desiredValue: string;
        if target.resourceType == "File" && e.property == "content" {
          var data := decode(e.desiredValue);
          desiredValue := if data.None? then e.desiredValue else data.value;
        } else {
          desiredValue := StripSymbol(e.desiredValue);
        }
        events := events + [GroupEvent(StripSymbol(e.previousValue), desiredValue)];
      }
    }

    method ShowLogs(targetLogs: seq<Log>) returns (diff: string, logs: seq<GroupLog>)
      ensures diff == LastDiff(targetLogs) && logs == LogsShown(targetLogs)
    {
      diff, logs := "", [];
      for i := 0 to |targetLogs|
        invariant diff == LastDiff(targetLogs[..i]) && logs == LogsShown(targetLogs[..i])
      {
        var l := targetLogs[i];
        assert targetLogs[..i+1][..i] == targetLogs[..i];
        if IsDiff(l) {
          diff := DiffShown(l);
        } else {
          logs := logs + [LogShown(l)];
        }
      }
      assert targetLogs[..|targetLogs|] == targetLogs;
    }

    /** The grouping loop of a commit. */
    method GroupAll() returns (groups: seq<GroupedResource>)
      requires TitlesMatch(deltas)
      modifies this
      ensures forall h :: h in deltas ==> deltas[h] == map[]
      ensures IsPartition(old(deltas), groups) && Rendered(old(deltas), groups, decode)
    {
      hide Left, PartialPartition, Grouped, IsPartition, Rendered, Render, OnlyLines;
      groups := [];
      var hosts := deltas.Keys;
      PartitionStart(deltas, decode);
      while hosts != {}
        invariant hosts <= deltas.Keys == old(deltas).Keys && TitlesMatch(deltas)
        invariant Left(deltas, hosts, "", {})
        invariant PartialPartition(old(deltas), deltas, groups) && Rendered(old(deltas), groups, decode)
        invariant OnlyLines(old(deltas), deltas)
        decreases |hosts|
      {
        var host :| host in hosts;
        var titles := deltas[host].Keys;  // the entries the range may still yield
        LeftHost(deltas, hosts, host);
        hosts := hosts - {host};
        while titles != {}
          invariant deltas.Keys == old(deltas).Keys && TitlesMatch(deltas)
          invariant Left(deltas, hosts, host, titles)
          invariant PartialPartition(old(deltas), deltas, groups) && Rendered(old(deltas), groups, decode)
          invariant OnlyLines(old(deltas), deltas)
          decreases |titles|
        {
          var title :| title in titles;
          ghost var before := deltas;
          if title in deltas[host] {
            var gr := GroupResources(host, title);
            PartitionStep(old(deltas), before, deltas, groups, host, gr);
            RenderedStep(old(deltas), before, groups, host, gr, decode);
            OnlyLinesOn(old(deltas), before, deltas);
            groups := groups + [gr];
            LeftStep(before, deltas, hosts, host, titles, title, gr);
          } else {
            LeftSkip(deltas, hosts, host, titles, title);
          }
          titles := titles - {title};
        }
        LeftNone(deltas, hosts, host);
      }
      LeftNothing(deltas);
      PartitionEnd(old(deltas), deltas, groups);
    }
  }

  /** Only these hosts, and the host being visited under these titles, still have deltas. */
  ghost predicate Left(deltas: Deltas, hosts: set<Host>, host: Host, titles: set<Title>) {
    forall h, t :: At(deltas, h, t) ==> h in hosts || (h == host && t in titles)
  }

  lemma LeftHost(deltas: Deltas, hosts: set<Host>, host: Host)
    requires Left(deltas, hosts, "", {}) && host in hosts && host in deltas
    ensures Left(deltas, hosts - {host}, host, deltas[host].Keys)
  {
  }

  lemma LeftSkip(deltas: Deltas, hosts: set<Host>, host: Host, titles: set<Title>, title: Title)
    requires Left(deltas, hosts, host, titles) && host in deltas && title !in deltas[host]
    ensures Left(deltas, hosts, host, titles - {title})
  {
  }

  lemma LeftStep(before: Deltas, after: Deltas, hosts: set<Host>, host: Host, titles: set<Title>, title: Title,
                 gr: GroupedResource)
    requires Left(before, hosts, host, titles) && Grouped(before, after, gr) && gr.title == title
    requires At(before, host, title) && KeyAt(before, host, title) == GroupKey(gr)
    ensures Left(after, hosts, host, titles - {title})
  {
  }

  lemma LeftNone(deltas: Deltas, hosts: set<Host>, host: Host)
    requires Left(deltas, hosts, host, {})
    ensures Left(deltas, hosts, "", {})
  {
  }

  lemma LeftNothing(deltas: Deltas)
    requires Left(deltas, {}, "", {})
    ensures (forall h, t :: !At(deltas, h, t)) && forall h :: h in deltas ==> deltas[h] == map[]
  {
    forall h | h in deltas ensures deltas[h] == map[] {
      if t :| t in deltas[h] { assert At(deltas, h, t); }
    }
  }

  lemma PartitionStart(deltas: Deltas, decode: Decoder)
    ensures Rendered(deltas, [], decode) && OnlyLines(deltas, deltas)
    ensures PartialPartition(deltas, deltas, []) && Left(deltas, deltas.Keys, "", {})
  {
  }

  /** The target was grouped at all nodes but the given ones. */
  ghost predicate Visiting(before: Deltas, now: Deltas, nodes: set<Host>, title: Title, key: Key, nodeList: seq<Host>) {
    && now.Keys == before.Keys && Distinct(nodeList)
    && (forall h :: h in now ==> now[h] == if h in nodes then before[h] else Visit(before[h], title, key))
    && (forall h :: h in nodeList <==> h in before && h !in nodes && Matches(before[h], title, key))
  }

  lemma VisitStart(deltas: Deltas, title: Title, key: Key)
    ensures Visiting(deltas, deltas, deltas.Keys, title, key, [])
  {
  }

  lemma VisitStep(before: Deltas, now: Deltas, nodes: set<Host>, title: Title, key: Key, nodeList: seq<Host>, h: Host)
    requires Visiting(before, now, nodes, title, key, nodeList) && h in nodes && h in now
    ensures title !in now[h] ==> Visiting(before, now, nodes - {h}, title, key, nodeList)
    ensures title in now[h] ==>
              var d := now[h][title].(line := 0);
              if KeyOf(d) == key then Visiting(before, now[h := now[h] - {title}], nodes - {h}, title, key,
                                               nodeList + [h])
              else Visiting(before, now[h := now[h][title := d]], nodes - {h}, title, key, nodeList)
    ensures |nodes - {h}| < |nodes|
  {
  }

  lemma VisitedGroups(before: Deltas, after: Deltas, gr: GroupedResource)
    requires TitlesMatch(before) && before.Keys == after.Keys
    requires gr.line == 0 && Visiting(before, after, {}, gr.title, GroupKey(gr), gr.hosts)
    ensures Grouped(before, after, gr) && TitlesMatch(after)
  {
  }

  lemma VisitedLines(before: Deltas, after: Deltas, title: Title, key: Key, nodeList: seq<Host>)
    requires before.Keys == after.Keys && Visiting(before, after, {}, title, key, nodeList)
    ensures OnlyLines(before, after)
  {
    hide KeyOf, Matches;
    forall h, t | At(after, h, t) ensures At(before, h, t) && after[h][t].(line := 0) == before[h][t].(line := 0) {
      assert after[h] == Visit(before[h], title, key);
    }
  }

  ghost predicate Placed(groups: seq<GroupedResource>, h: Host, t: Title) {
    exists i :: 0 <= i < |groups| && Holds(groups[i], h, t)
  }

  ghost predicate Disjoint(groups: seq<GroupedResource>) {
    forall i, j, h, t :: 0 <= i < j < |groups| && Holds(groups[i], h, t) ==> !Holds(groups[j], h, t)
  }

  /** A delta lies in a group exactly when it has the title and the key of the group. */
  ghost predicate KeysDecide(deltas: Deltas, groups: seq<GroupedResource>) {
    forall i, h, t :: 0 <= i < |groups| ==>
                        (Holds(groups[i], h, t) <==> At(deltas, h, t) && KeyAt(deltas, h, t) == GroupKey(groups[i]))
  }

  ghost predicate Shaped(groups: seq<GroupedResource>) {
    forall i :: 0 <= i < |groups| ==> Distinct(groups[i].hosts) && groups[i].hosts != [] && groups[i].line == 0
  }

  function HostCount(groups: seq<GroupedResource>): nat {
    if groups == [] then 0 else HostCount(groups[..|groups|-1]) + |groups[|groups|-1].hosts|
  }

  /** The (host, title) pairs that hold a delta. */
  ghost function Entries(deltas: Deltas): set<(Host, Title)> {
    set h, t | h in deltas && t in deltas[h] :: (h, t)
  }

  /** Every delta lies in exactly one group, which is the group of its key;
      hosts are listed once each; no delta is counted twice or lost; no group
      is empty, and none has kept a line. */
  ghost predicate IsPartition(deltas: Deltas, groups: seq<GroupedResource>) {
    && (forall h, t :: At(deltas, h, t) <==> Placed(groups, h, t))
    && Disjoint(groups)
    && KeysDecide(deltas, groups)
    && Shaped(groups)
    && HostCount(groups) == |Entries(deltas)|
  }

  /** Every group was made from the delta of one of its hosts. */
  ghost predicate Rendered(deltas: Deltas, groups: seq<GroupedResource>, decode: Decoder) {
    forall i :: 0 <= i < |groups| ==> HasTarget(groups[i], deltas, decode)
  }

  ghost predicate HasTarget(g: GroupedResource, deltas: Deltas, decode: Decoder) {
    exists h :: MadeFrom(g, deltas, h, decode)
  }

  ghost predicate MadeFrom(g: GroupedResource, deltas: Deltas, h: Host, decode: Decoder) {
    h in g.hosts && At(deltas, h, g.title) && g == Render(deltas[h][g.title], g.hosts, decode)
  }

  /** The same while `left` is still to be grouped. */
  ghost predicate PartialPartition(deltas: Deltas, left: Deltas, groups: seq<GroupedResource>) {
    && (forall h, t :: At(deltas, h, t) <==> At(left, h, t) || Placed(groups, h, t))
    && (forall h, t :: At(left, h, t) ==> !Placed(groups, h, t) && KeyAt(left, h, t) == KeyAt(deltas, h, t))
    && Disjoint(groups)
    && KeysDecide(deltas, groups)
    && Shaped(groups)
    && HostCount(groups) + |Entries(left)| == |Entries(deltas)|
  }

  lemma PartitionEnd(deltas: Deltas, left: Deltas, groups: seq<GroupedResource>)
    requires PartialPartition(deltas, left, groups) && forall h, t :: !At(left, h, t)
    ensures IsPartition(deltas, groups)
  {
    if e :| e in Entries(left) { assert At(left, e.0, e.1); }
  }

  lemma {:induction false} PairsCardinality(hosts: seq<Host>, title: Title)
    requires Distinct(hosts)
    ensures |PairsOf(hosts, title)| == |hosts|
  {
    if hosts != [] {
      var rest, last := hosts[..|hosts|-1], hosts[|hosts|-1];
      PairsCardinality(rest, title);
      assert PairsOf(hosts, title) == PairsOf(rest, title) + {(last, title)};
      assert last !in rest;
    }
  }

  ghost function PairsOf(hosts: seq<Host>, title: Title): set<(Host, Title)> {
    set h | h in hosts :: (h, title)
  }

  lemma EntriesSplit(before: Deltas, after: Deltas, gr: GroupedResource)
    requires Grouped(before, after, gr)
    ensures Entries(before) == Entries(after) + PairsOf(gr.hosts, gr.title)
    ensures Entries(after) !! PairsOf(gr.hosts, gr.title)
  {
    forall h, t
      ensures (h, t) in Entries(before) <==> At(before, h, t)
      ensures (h, t) in Entries(after) <==> At(before, h, t) && !Holds(gr, h, t)
      ensures (h, t) in PairsOf(gr.hosts, gr.title) <==> Holds(gr, h, t)
      ensures Holds(gr, h, t) ==> At(before, h, t)
    {
      assert At(after, h, t) <==> At(before, h, t) && !Holds(gr, h, t);
    }
  }

  lemma EntriesTaken(before: Deltas, after: Deltas, gr: GroupedResource)
    requires Grouped(before, after, gr)
    ensures |Entries(before)| == |Entries(after)| + |gr.hosts|
  {
    EntriesSplit(before, after, gr);
    PairsCardinality(gr.hosts, gr.title);
  }

  lemma PlacedAppend(groups: seq<GroupedResource>, gr: GroupedResource, h: Host, t: Title)
    ensures Placed(groups + [gr], h, t) <==> Placed(groups, h, t) || Holds(gr, h, t)
  {
    var all := groups + [gr];
    if i :| 0 <= i < |groups| && Holds(groups[i], h, t) { assert Holds(all[i], h, t); }
    if Holds(gr, h, t) { assert Holds(all[|groups|], h, t); }
  }

  lemma PartitionStep(deltas: Deltas, before: Deltas, after: Deltas, groups: seq<GroupedResource>,
                      host: Host, gr: GroupedResource)
    requires TitlesMatch(deltas) && TitlesMatch(before)
    requires PartialPartition(deltas, before, groups) && Grouped(before, after, gr)
    requires At(before, host, gr.title) && KeyAt(before, host, gr.title) == GroupKey(gr)
    ensures PartialPartition(deltas, after, groups + [gr])
  {
    var all := groups + [gr];
    forall h, t ensures Placed(all, h, t) <==> Placed(groups, h, t) || Holds(gr, h, t) {
      PlacedAppend(groups, gr, h, t);
    }
    KeysStep(deltas, before, after, groups, host, gr);
    DisjointStep(deltas, before, groups, host, gr);
    EntriesTaken(before, after, gr);
    assert all[..|all|-1] == groups;
    assert Holds(gr, host, gr.title);
  }

  lemma SameRendered(d: DeltaResource, e: DeltaResource, hosts: seq<Host>, decode: Decoder)
    requires d.(line := 0) == e.(line := 0)
    ensures Render(d, hosts, decode) == Render(e, hosts, decode)
  {
    assert EventsShown(d, decode) == EventsShown(e, decode);
  }

  lemma RenderedStep(deltas: Deltas, before: Deltas, groups: seq<GroupedResource>, host: Host, gr: GroupedResource,
                     decode: Decoder)
    requires Rendered(deltas, groups, decode) && OnlyLines(deltas, before)
    requires At(before, host, gr.title) && gr == Render(before[host][gr.title], gr.hosts, decode) && host in gr.hosts
    ensures Rendered(deltas, groups + [gr], decode)
  {
    var all := groups + [gr];
    hide Render;
    SameRendered(before[host][gr.title], deltas[host][gr.title], gr.hosts, decode);
    assert MadeFrom(gr, deltas, host, decode);
    forall i | 0 <= i < |all| ensures HasTarget(all[i], deltas, decode) {
      if i < |groups| {
        assert all[i] == groups[i];
      }
    }
  }

  lemma KeysStep(deltas: Deltas, before: Deltas, after: Deltas, groups: seq<GroupedResource>,
                 host: Host, gr: GroupedResource)
    requires TitlesMatch(deltas) && TitlesMatch(before)
    requires PartialPartition(deltas, before, groups) && Grouped(before, after, gr)
    requires At(before, host, gr.title) && KeyAt(before, host, gr.title) == GroupKey(gr)
    ensures KeysDecide(deltas, groups + [gr])
  {
  }

  lemma DisjointStep(deltas: Deltas, before: Deltas, groups: seq<GroupedResource>, host: Host, gr: GroupedResource)
    requires PartialPartition(deltas, before, groups)
    requires forall h :: h in gr.hosts ==> At(before, h, gr.title)
    requires At(before, host, gr.title) && KeyAt(before, host, gr.title) == GroupKey(gr)
    ensures Disjoint(groups + [gr])
  {
  }

  /** What the partition means: two nodes share a group of a title exactly when
      title, type, define type and file of their deltas agree. */
  lemma SharedGroup(deltas: Deltas, groups: seq<GroupedResource>, h1: Host, h2: Host, t: Title)
    requires IsPartition(deltas, groups) && At(deltas, h1, t) && At(deltas, h2, t)
    ensures (exists i :: 0 <= i < |groups| && Holds(groups[i], h1, t) && Holds(groups[i], h2, t))
        <==> KeyAt(deltas, h1, t) == KeyAt(deltas, h2, t)
  {
  }

  /** Events, logs, lines and containment paths play no part in the grouping. */
  lemma GroupingIgnoresEvents(deltas: Deltas, other: Deltas, groups: seq<GroupedResource>)
    requires IsPartition(deltas, groups)
    requires forall h, t :: At(deltas, h, t) <==> At(other, h, t)
    requires forall h, t :: At(deltas, h, t) ==> KeyAt(deltas, h, t) == KeyAt(other, h, t)
    ensures IsPartition(other, groups)
  {
    forall h, t ensures (h, t) in Entries(deltas) <==> (h, t) in Entries(other) {
      assert At(deltas, h, t) <==> At(other, h, t);
    }
    assert Entries(deltas) == Entries(other);
  }

  // ------------------------------------------------------- what the groups show

  /** An event or a log of a delta. */
  datatype Change = OfEvent(event: Event) | OfLog(log: Log)

  predicate Has(d: DeltaResource, x: Change) {
    match x
    case OfEvent(e) => e in d.events
    case OfLog(l) => l in d.logs
  }

  /** The resource shows the change, as hecklerd prints it. */
  predicate Shows(g: GroupedResource, x: Change, decode: Decoder) {
    match x
    case OfEvent(e) => EventShown(g.resourceType, e, decode) in g.events
    case OfLog(l) => if IsDiff(l) then g.diff == DiffShown(l) else LogShown(l) in g.logs
  }

  /** The resource shows all of the delta. */
  ghost predicate ShowsAll(g: GroupedResource, d: DeltaResource, decode: Decoder) {
    forall x :: Has(d, x) ==> Shows(g, x, decode)
  }

  /** Every change is shown by the group its delta lies in. */
  ghost predicate AllShown(deltas: Deltas, groups: seq<GroupedResource>, decode: Decoder) {
    forall i, h :: 0 <= i < |groups| && h in groups[i].hosts && At(deltas, h, groups[i].title) ==>
                     ShowsAll(groups[i], deltas[h][groups[i].title], decode)
  }

  ghost predicate SameKey(deltas: Deltas, h: Host, k: Host, t: Title) {
    At(deltas, h, t) && At(deltas, k, t) && KeyAt(deltas, h, t) == KeyAt(deltas, k, t)
  }

  /** Deltas that are grouped together print the same: what one of them has, the other shows. */
  ghost predicate Agree(deltas: Deltas, decode: Decoder) {
    forall h, k, t :: SameKey(deltas, h, k, t) ==> ShowsAll(Render(deltas[k][t], [], decode), deltas[h][t], decode)
  }

  lemma ShowsAnyHosts(d: DeltaResource, e: DeltaResource, hosts: seq<Host>, decode: Decoder)
    ensures ShowsAll(Render(d, hosts, decode), e, decode) <==> ShowsAll(Render(d, [], decode), e, decode)
  {
    hide Has, EventShown, IsDiff;
    forall x ensures Shows(Render(d, hosts, decode), x, decode) <==> Shows(Render(d, [], decode), x, decode) {
    }
  }

  /** A group holds, for its title, exactly the hosts with its key. */
  lemma Members(deltas: Deltas, groups: seq<GroupedResource>, i: nat, h: Host)
    requires IsPartition(deltas, groups) && i < |groups|
    ensures h in groups[i].hosts <==>
              At(deltas, h, groups[i].title) && KeyAt(deltas, h, groups[i].title) == GroupKey(groups[i])
  {
    assert Holds(groups[i], h, groups[i].title) <==> h in groups[i].hosts;
  }

  lemma GroupOf(deltas: Deltas, groups: seq<GroupedResource>, h: Host, t: Title) returns (i: nat)
    requires IsPartition(deltas, groups) && At(deltas, h, t)
    ensures i < |groups| && groups[i].title == t && h in groups[i].hosts
  {
    assert Placed(groups, h, t);
    i :| 0 <= i < |groups| && Holds(groups[i], h, t);
  }

  lemma AgreeShown(deltas: Deltas, groups: seq<GroupedResource>, decode: Decoder)
    requires Agree(deltas, decode) && IsPartition(deltas, groups) && Rendered(deltas, groups, decode)
    ensures AllShown(deltas, groups, decode)
  {
    hide IsPartition, ShowsAll, Render;
    forall i, h | 0 <= i < |groups| && h in groups[i].hosts && At(deltas, h, groups[i].title)
      ensures ShowsAll(groups[i], deltas[h][groups[i].title], decode)
    {
      assert HasTarget(groups[i], deltas, decode);
      var k :| MadeFrom(groups[i], deltas, k, decode);
      Members(deltas, groups, i, h);
      Members(deltas, groups, i, k);
      assert SameKey(deltas, h, k, groups[i].title);
      ShowsAnyHosts(deltas[k][groups[i].title], deltas[h][groups[i].title], groups[i].hosts, decode);
    }
  }

  lemma RenderKeeps(d: DeltaResource, hosts: seq<Host>, decode: Decoder)
    ensures var g := Render(d, hosts, decode);
            g.title == d.title && g.hosts == hosts && g.line == 0 && GroupKey(g) == KeyOf(d)
  {
  }

  /** The same partition, its group i made from another of its hosts. */
  lemma MadeAnew(deltas: Deltas, groups: seq<GroupedResource>, decode: Decoder, i: nat, k: Host)
    returns (other: seq<GroupedResource>)
    requires TitlesMatch(deltas) && IsPartition(deltas, groups) && Rendered(deltas, groups, decode)
    requires i < |groups| && k in groups[i].hosts && At(deltas, k, groups[i].title)
    ensures |other| == |groups| && other[i] == Render(deltas[k][groups[i].title], groups[i].hosts, decode)
    ensures IsPartition(deltas, other) && Rendered(deltas, other, decode)
  {
    hide Render, IsPartition;
    var g := Render(deltas[k][groups[i].title], groups[i].hosts, decode);
    Members(deltas, groups, i, k);
    RenderKeeps(deltas[k][groups[i].title], groups[i].hosts, decode);
    other := groups[i := g];
    ShapedLine(deltas, groups, i);
    SamePartition(deltas, groups, other);
    assert MadeFrom(g, deltas, k, decode);
    forall j | 0 <= j < |other| ensures HasTarget(other[j], deltas, decode) {
      if j != i {
        assert other[j] == groups[j];
      }
    }
  }

  lemma ShapedLine(deltas: Deltas, groups: seq<GroupedResource>, i: nat)
    requires IsPartition(deltas, groups) && i < |groups|
    ensures groups[i].line == 0
  {
  }

  /** Only titles, keys, hosts and lines make a partition. */
  lemma SamePartition(deltas: Deltas, groups: seq<GroupedResource>, other: seq<GroupedResource>)
    requires IsPartition(deltas, groups) && |other| == |groups|
    requires forall j :: 0 <= j < |groups| ==>
                           GroupKey(other[j]) == GroupKey(groups[j]) && other[j].hosts == groups[j].hosts
                           && other[j].line == groups[j].line
    ensures IsPartition(deltas, other)
  {
    forall j, h, t | 0 <= j < |groups| ensures Holds(other[j], h, t) <==> Holds(groups[j], h, t) {
    }
    forall h, t ensures Placed(other, h, t) <==> Placed(groups, h, t) {
      if j :| 0 <= j < |groups| && Holds(groups[j], h, t) { assert Holds(other[j], h, t); }
      if j :| 0 <= j < |groups| && Holds(other[j], h, t) { assert Holds(groups[j], h, t); }
    }
    SameCount(groups, other);
  }

  lemma {:induction false} SameCount(groups: seq<GroupedResource>, other: seq<GroupedResource>)
    requires |other| == |groups| && forall j :: 0 <= j < |groups| ==> other[j].hosts == groups[j].hosts
    ensures HostCount(other) == HostCount(groups)
  {
    if groups != [] {
      SameCount(groups[..|groups|-1], other[..|groups|-1]);
    }
  }

  /** The groups show every change of every delta, whichever host each group was
      made from, if and only if deltas that are grouped together print the same. */
  lemma ShownExactly(deltas: Deltas, groups: seq<GroupedResource>, decode: Decoder)
    requires TitlesMatch(deltas) && IsPartition(deltas, groups) && Rendered(deltas, groups, decode)
    ensures (forall made :: IsPartition(deltas, made) && Rendered(deltas, made, decode) ==> AllShown(deltas, made,
                                                                                                     decode))
        <==> Agree(deltas, decode)
  {
    hide IsPartition, Rendered, Agree, AllShown;
    if Agree(deltas, decode) {
      forall made | IsPartition(deltas, made) && Rendered(deltas, made, decode) ensures AllShown(deltas, made, decode) {
        AgreeShown(deltas, made, decode);
      }
    } else {
      var other := Disagreeing(deltas, groups, decode);
    }
  }

  lemma Disagreeing(deltas: Deltas, groups: seq<GroupedResource>, decode: Decoder) returns (other: seq<GroupedResource>)
    requires TitlesMatch(deltas) && IsPartition(deltas, groups) && Rendered(deltas, groups, decode)
    requires !Agree(deltas, decode)
    ensures IsPartition(deltas, other) && Rendered(deltas, other, decode) && !AllShown(deltas, other, decode)
  {
    hide IsPartition, Rendered, ShowsAll, Render;
    var h, k, t :| SameKey(deltas, h, k, t) && !ShowsAll(Render(deltas[k][t], [], decode), deltas[h][t], decode);
    var i := GroupOf(deltas, groups, k, t);
    Members(deltas, groups, i, k);
    Members(deltas, groups, i, h);
    other := MadeAnew(deltas, groups, decode, i, k);
    ShowsAnyHosts(deltas[k][t], deltas[h][t], groups[i].hosts, decode);
    RenderKeeps(deltas[k][t], groups[i].hosts, decode);
    assert h in other[i].hosts && At(deltas, h, other[i].title);
  }

  /** Two nodes that differ in nothing but their event share a group, and the
      event of one of them is shown nowhere. */
  lemma OneEventLost(d: DeltaResource, e: Event, f: Event, a: Host, b: Host, groups: seq<GroupedResource>,
                     decode: Decoder)
    requires a != b && EventShown(d.resourceType, e, decode) != EventShown(d.resourceType, f, decode)
    requires IsPartition(TwoNodes(d, e, f, a, b), groups) && Rendered(TwoNodes(d, e, f, a, b), groups, decode)
    ensures exists i :: 0 <= i < |groups| && Holds(groups[i], a, d.title) && Holds(groups[i], b, d.title)
    ensures (forall i :: 0 <= i < |groups| ==> !Shows(groups[i], OfEvent(e), decode))
            || (forall i :: 0 <= i < |groups| ==> !Shows(groups[i], OfEvent(f), decode))
  {
    hide IsPartition, EventShown, Rendered, MadeFrom, TwoNodes;
    var deltas := TwoNodes(d, e, f, a, b);
    TwoNodesAre(d, e, f, a, b);
    SharedGroup(deltas, groups, a, b, d.title);
    var g :| 0 <= g < |groups| && Holds(groups[g], a, d.title) && Holds(groups[g], b, d.title);
    forall i | 0 <= i < |groups| ensures i == g && groups[i] == groups[g] {
      OnlyGroup(d, e, f, a, b, groups, decode, g, i);
    }
    OnlyGroup(d, e, f, a, b, groups, decode, g, g);
  }

  lemma TwoNodesAre(d: DeltaResource, e: Event, f: Event, a: Host, b: Host)
    requires a != b
    ensures var deltas := TwoNodes(d, e, f, a, b);
            && At(deltas, a, d.title) && At(deltas, b, d.title)
            && KeyAt(deltas, a, d.title) == KeyAt(deltas, b, d.title)
            && forall h, t :: At(deltas, h, t) ==>
                                t == d.title && deltas[h][t] in {d.(events := [e]), d.(events := [f])} && h in {a, b}
  {
  }

  /** There is one group, and it prints one of the two events. */
  lemma OnlyGroup(d: DeltaResource, e: Event, f: Event, a: Host, b: Host, groups: seq<GroupedResource>, decode: Decoder,
                  g: nat, i: nat)
    requires a != b && IsPartition(TwoNodes(d, e, f, a, b), groups) && Rendered(TwoNodes(d, e, f, a, b), groups, decode)
    requires g < |groups| && Holds(groups[g], a, d.title) && Holds(groups[g], b, d.title) && i < |groups|
    ensures i == g && (Printed(groups[i], d, e, decode) || Printed(groups[i], d, f, decode))
  {
    hide IsPartition, EventShown, TwoNodes;
    var deltas := TwoNodes(d, e, f, a, b);
    TwoNodesAre(d, e, f, a, b);
    assert HasTarget(groups[i], deltas, decode);
    var h :| MadeFrom(groups[i], deltas, h, decode);
    OneGroup(deltas, groups, i, g, h, d.title);
  }

  lemma OneGroup(deltas: Deltas, groups: seq<GroupedResource>, i: nat, j: nat, h: Host, t: Title)
    requires IsPartition(deltas, groups) && i < |groups| && j < |groups|
    requires Holds(groups[i], h, t) && Holds(groups[j], h, t)
    ensures i == j
  {
  }

  ghost predicate Printed(g: GroupedResource, d: DeltaResource, e: Event, decode: Decoder) {
    g.resourceType == d.resourceType && g.events == [EventShown(d.resourceType, e, decode)]
  }

  function TwoNodes(d: DeltaResource, e: Event, f: Event, a: Host, b: Host): Deltas {
    map[a := map[d.title := d.(events := [e])], b := map[d.title := d.(events := [f])]]
  }

  /** Even on one node a second diff hides the first. */
  lemma OneDiffLost(d: DeltaResource, l: Log, m: Log, hosts: seq<Host>, decode: Decoder)
    requires IsDiff(l) && IsDiff(m) && DiffShown(l) != DiffShown(m) && d.logs == [l, m]
    ensures Has(d, OfLog(l)) && !Shows(Render(d, hosts, decode), OfLog(l), decode)
    ensures Shows(Render(d, hosts, decode), OfLog(m), decode)
  {
  }
}
