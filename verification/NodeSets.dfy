/** Node sets: locking with rollback, eligibility, last applies, and the apply
    of a revision to a set. A set of hosts stands for a map from host to node. */
module NodeSets {
  import opened Wrappers
  import opened CommitGraph
  import opened LockFile
  import opened NoopReports
  import opened Fleets

  /** A negative threshold is disabled. */
  datatype Thresholds = Thresholds(errored: int, lockedByAnother: int)

  predicate Exceeds(t: Thresholds, errored: set<Host>, lockedByAnother: set<Host>) {
    || (t.errored > -1 && |errored| > t.errored)
    || (t.lockedByAnother > -1 && |lockedByAnother| > t.lockedByAnother)
  }

  lemma Smaller<T>(few: set<T>, many: set<T>)
    requires few <= many
    ensures |few| <= |many|
  {
    assert many == few + (many - few);
  }

  lemma ExceedsMore(t: Thresholds, errored0: set<Host>, errored: set<Host>, another0: set<Host>, another: set<Host>)
    requires Exceeds(t, errored0, another0) && errored0 <= errored && another0 <= another
    ensures Exceeds(t, errored, another)
  {
    Smaller(errored0, errored);
    Smaller(another0, another);
  }

  /** Too many are more than a limit that is not negative; with more nodes it stays too many. */
  lemma TooMany(t: Thresholds, errored0: set<Host>, errored: set<Host>, another0: set<Host>, another: set<Host>)
    requires errored0 <= errored && another0 <= another
    ensures Exceeds(t, errored0, another0)
        <==> 0 <= t.errored < |errored0| || 0 <= t.lockedByAnother < |another0|
    ensures Exceeds(t, errored0, another0) ==> Exceeds(t, errored, another)
  {
    if Exceeds(t, errored0, another0) {
      ExceedsMore(t, errored0, errored, another0, another);
    }
  }

  class NodeSet {
    const thresholds: Thresholds
    var dialed: set<Host>
    var active: set<Host>
    var errored: set<Host>
    var locked: set<Host>
    var lockedByAnother: set<Host>
    /** What each node last applied, once asked. */
    var lastApply: map<Host, Oid>

    constructor (thresholds: Thresholds)
      ensures this.thresholds == thresholds
      ensures dialed == active == errored == locked == lockedByAnother == {} && lastApply == map[]
    {
      this.thresholds := thresholds;
      dialed, active, errored, locked, lockedByAnother := {}, {}, {}, {}, {};
      lastApply := map[];
    }

    predicate ThresholdExceeded()
      reads this
    {
      Exceeds(thresholds, errored, lockedByAnother)
    }
  }

  lemma ExceededIs(ns: NodeSet)
    ensures ns.ThresholdExceeded() <==> Exceeds(ns.thresholds, ns.errored, ns.lockedByAnother)
  {
  }

  /** Replies of one round of lock requests, by status. */
  datatype Replies = Replies(locked: set<Host>, unlocked: set<Host>, another: set<Host>, unknown: set<Host>)
  {
    ghost predicate Deals(hosts: set<Host>) {
      && locked + unlocked + another + unknown == hosts
      && locked !! unlocked !! another !! unknown
    }
  }

  /** What a round of requests tells about the nodes held and granted before
      (`h0`, `g0`) and after (`h1`, `g1`) it. A node locked by the round was free
      before; one that changed without being reported did not answer. A node
      still held after it was asked back did not answer either. */
  ghost predicate Round(kind: LockReqType, r: Replies, changed: set<Host>, nodes: set<Host>,
                        h0: set<Host>, h1: set<Host>, g0: set<Host>, g1: set<Host>)
  {
    && r.Deals(nodes) && changed <= nodes
    && match kind
       case LockReq =>
         && r.unlocked == {} && r.locked <= changed <= r.locked + r.unknown
         && changed !! h0 && h1 == h0 + changed && g1 == g0 + r.locked
       case UnlockReq =>
         && r.locked == {} && changed <= r.unlocked + r.unknown
         && changed <= h0 && h1 == h0 - changed && (r.unlocked + r.another) !! h1 && g1 == g0 - nodes
       case StateReq =>
         && changed == {} && h1 == h0 && g1 == g0 && r.locked <= h0 && (r.unlocked + r.another) !! h0
  }

  function Record(r: Replies, status: LockStatus, host: Host): Replies {
    match status
    case Unlocked => r.(unlocked := r.unlocked + {host})
    case LockedByUser => r.(locked := r.locked + {host})
    case LockedByAnother => r.(another := r.another + {host})
    case LockUnknown => r.(unknown := r.unknown + {host})
  }

  lemma RoundStep(kind: LockReqType, r: Replies, changed: set<Host>, nodes: set<Host>,
                  h0: set<Host>, h1: set<Host>, g0: set<Host>, g1: set<Host>,
                  host: Host, status: LockStatus, ch: bool, h2: set<Host>, g2: set<Host>)
    requires Round(kind, r, changed, nodes, h0, h1, g0, g1) && host !in nodes
    requires OneReply(kind, status, ch, host, h1, h2, g1, g2)
    ensures Round(kind, Record(r, status, host), if ch then changed + {host} else changed, nodes + {host}, h0, h2, g0,
                  g2)
  {
  }

  lemma TraceStep(kind: LockReqType, changed: set<Host>, host: Host, ch: bool,
                  l0: map<Host, Lock>, l1: map<Host, Lock>, l2: map<Host, Lock>)
    requires LockTrace(kind, changed, l0, l1) && host !in changed
    requires LockTrace(kind, if ch then {host} else {}, l1, l2)
    ensures LockTrace(kind, if ch then changed + {host} else changed, l0, l2)
  {
  }

  ghost function Where<T>(outcome: map<Host, T>, o: T): set<Host> {
    set h | h in outcome && outcome[h] == o
  }

  /** Since the given answer the node answered a request like that. */
  ghost predicate Told(log: seq<NodeAnswer>, from: nat, kind: LockReqType, h: Host, status: LockStatus) {
    exists i :: from <= i < |log| && log[i].LockAnswer?
                && log[i].host == h && log[i].kind == kind && log[i].status == status
  }

  lemma ToldStep(log: seq<NodeAnswer>, a: NodeAnswer, from: nat, kind: LockReqType, h: Host, status: LockStatus)
    requires from <= |log|
    ensures Told(log + [a], from, kind, h, status) <==>
              || Told(log, from, kind, h, status)
              || (a.LockAnswer? && a.host == h && a.kind == kind && a.status == status)
  {
    var more := log + [a];
    assert more[|log|] == a && forall i :: 0 <= i < |log| ==> more[i] == log[i];
  }

  /** These nodes, each of them once, were sent a request and answered with the given status. */
  ghost predicate AnswersAre(log0: seq<NodeAnswer>, log1: seq<NodeAnswer>, user: User, kind: LockReqType,
                             comment: string, said: map<Host, LockStatus>)
  {
    && log0 <= log1
    && (forall i :: |log0| <= i < |log1| ==>
                      log1[i].host in said
                      && log1[i] == LockAnswer(log1[i].host, user, kind, comment, said[log1[i].host]))
    && (forall h :: h in said ==> exists i :: |log0| <= i < |log1| && log1[i].host == h)
    && (forall i, j :: |log0| <= i < j < |log1| ==> log1[i].host != log1[j].host)
  }

  lemma AnswersStart(log: seq<NodeAnswer>, user: User, kind: LockReqType, comment: string)
    ensures AnswersAre(log, log, user, kind, comment, map[])
  {
  }

  lemma AnswersStep(log0: seq<NodeAnswer>, log1: seq<NodeAnswer>, user: User, kind: LockReqType, comment: string,
                    said: map<Host, LockStatus>, host: Host, status: LockStatus)
    requires AnswersAre(log0, log1, user, kind, comment, said) && host !in said
    ensures AnswersAre(log0, log1 + [LockAnswer(host, user, kind, comment, status)], user, kind, comment,
                       said[host := status])
  {
    var log2, said2 := log1 + [LockAnswer(host, user, kind, comment, status)], said[host := status];
    forall h | h in said2 ensures exists i :: |log0| <= i < |log2| && log2[i].host == h {
      if h == host {
        assert log2[|log1|].host == h;
      } else {
        var i :| |log0| <= i < |log1| && log1[i].host == h;
        assert log2[i].host == h;
      }
    }
  }

  /** The same, with the nodes sorted by what they answered. */
  ghost predicate Heard(log0: seq<NodeAnswer>, log1: seq<NodeAnswer>, user: User, kind: LockReqType, comment: string,
                        said: map<Host, LockStatus>, r: Replies)
  {
    && AnswersAre(log0, log1, user, kind, comment, said)
    && forall h :: && (h in r.locked <==> h in said && said[h] == LockedByUser)
                   && (h in r.unlocked <==> h in said && said[h] == Unlocked)
                   && (h in r.another <==> h in said && said[h] == LockedByAnother)
                   && (h in r.unknown <==> h in said && said[h] == LockUnknown)
  }

  lemma HeardStep(log0: seq<NodeAnswer>, log1: seq<NodeAnswer>, user: User, kind: LockReqType, comment: string,
                  said: map<Host, LockStatus>, r: Replies, host: Host, status: LockStatus)
    requires Heard(log0, log1, user, kind, comment, said, r) && host !in said
    ensures Heard(log0, log1 + [LockAnswer(host, user, kind, comment, status)], user, kind, comment,
                  said[host := status], Record(r, status, host))
  {
    AnswersStep(log0, log1, user, kind, comment, said, host, status);
    hide AnswersAre;
  }

  lemma AnswersSpelled(log0: seq<NodeAnswer>, log1: seq<NodeAnswer>, user: User, kind: LockReqType, comment: string,
                       said: map<Host, LockStatus>, r: Replies)
    requires Heard(log0, log1, user, kind, comment, said, r)
    ensures AnswersAre(log0, log1, user, kind, comment, said)
    ensures r.locked == Where(said, LockedByUser) && r.unlocked == Where(said, Unlocked)
    ensures r.another == Where(said, LockedByAnother) && r.unknown == Where(said, LockUnknown)
  {
    hide AnswersAre;
  }

  method RizzoLockNodes(fleet: Fleet, kind: LockReqType, comment: string, nodes: set<Host>)
    returns (r: Replies, ghost changed: set<Host>, ghost said: map<Host, LockStatus>)
    modifies fleet`locks, fleet`disturbed, fleet`granted, fleet`answers
    ensures Round(kind, r, changed, nodes, old(fleet.Held()), fleet.Held(), old(fleet.granted), fleet.granted)
    ensures !fleet.disturbed ==> !old(fleet.disturbed) && LockTrace(kind, changed, old(fleet.locks), fleet.locks)
    ensures fleet.HeldOtherwise() == old(fleet.HeldOtherwise())
    ensures said.Keys == nodes
    ensures AnswersAre(old(fleet.answers), fleet.answers, fleet.client, kind, comment, said)
    ensures r.locked == Where(said, LockedByUser) && r.unlocked == Where(said, Unlocked)
    ensures r.another == Where(said, LockedByAnother) && r.unknown == Where(said, LockUnknown)
  {
    hide *;
    r := Replies({}, {}, {}, {});
    changed, said := {}, map[];
    ghost var client, a0, h0, g0, l0 := fleet.client, fleet.answers, fleet.Held(), fleet.granted, fleet.locks;
    RoundStart(kind, h0, g0, l0);
    NobodyAnswered(a0, client, kind, comment);
    var rest := nodes;
    ghost var h1, g1, l1 := h0, g0, l0;
    while rest != {}
      invariant said.Keys + rest == nodes && said.Keys !! rest
      invariant Round(kind, r, changed, said.Keys, h0, h1, g0, g1)
      invariant h1 == fleet.Held() && g1 == fleet.granted && l1 == fleet.locks
      invariant !fleet.disturbed ==> !old(fleet.disturbed) && LockTrace(kind, changed, l0, l1)
      invariant fleet.HeldOtherwise() == old(fleet.HeldOtherwise())
      invariant Heard(a0, fleet.answers, client, kind, comment, said, r)
      decreases |rest|
    {
      var host :| host in rest;
      ghost var a1 := fleet.answers;
      var ls, ch := fleet.RizzoLock(host, kind, comment);
      HeardStep(a0, a1, client, kind, comment, said, r, host, ls.status);
      ghost var h2, g2, l2 := fleet.Held(), fleet.granted, fleet.locks;
      RoundInside(kind, r, changed, said.Keys, h0, h1, g0, g1);
      RoundStep(kind, r, changed, said.Keys, h0, h1, g0, g1, host, ls.status, ch, h2, g2);
      if !fleet.disturbed {
        TraceStep(kind, changed, host, ch, l0, l1, l2);
      }
      h1, g1, l1 := h2, g2, l2;
      changed := if ch then changed + {host} else changed;
      DoneStep(nodes, said.Keys, rest, host);
      AnsweredBy(said, host, ls.status);
      r, said := Record(r, ls.status, host), said[host := ls.status];
      rest := rest - {host};
    }
    assert said.Keys == nodes;
    AnswersSpelled(a0, fleet.answers, client, kind, comment, said, r);
  }

  lemma AnsweredBy<T>(said: map<Host, T>, host: Host, answer: T)
    ensures said[host := answer].Keys == said.Keys + {host}
  {
  }

  lemma NobodyAnswered(log: seq<NodeAnswer>, user: User, kind: LockReqType, comment: string)
    ensures Heard(log, log, user, kind, comment, map[], Replies({}, {}, {}, {}))
  {
  }

  lemma RoundStart(kind: LockReqType, h: set<Host>, g: set<Host>, locks: map<Host, Lock>)
    ensures Round(kind, Replies({}, {}, {}, {}), {}, {}, h, h, g, g) && LockTrace(kind, {}, locks, locks)
  {
  }

  lemma RoundInside(kind: LockReqType, r: Replies, changed: set<Host>, nodes: set<Host>,
                    h0: set<Host>, h1: set<Host>, g0: set<Host>, g1: set<Host>)
    requires Round(kind, r, changed, nodes, h0, h1, g0, g1)
    ensures changed <= nodes
  {
  }

  lemma DoneStep(nodes: set<Host>, done: set<Host>, rest: set<Host>, host: Host)
    requires done + rest == nodes && done !! rest && host in rest
    ensures (done + {host}) + (rest - {host}) == nodes && (done + {host}) !! (rest - {host})
    ensures |rest - {host}| < |rest| && host !in done
  {
  }

  // ------------------------------------------------------- locking with rollback

  method UnlockNodeSet(ns: NodeSet, fleet: Fleet)
    returns (r: Replies, ghost changed: set<Host>, ghost said: map<Host, LockStatus>)
    modifies ns`active, ns`errored, ns`locked, ns`lockedByAnother
    modifies fleet`locks, fleet`disturbed, fleet`granted, fleet`answers
    ensures Round(UnlockReq, r, changed, old(ns.locked), old(fleet.Held()), fleet.Held(), old(fleet.granted),
                  fleet.granted)
    ensures !fleet.disturbed ==> !old(fleet.disturbed) && LockTrace(UnlockReq, changed, old(fleet.locks), fleet.locks)
    ensures ns.active == r.unlocked && ns.locked == {}
    ensures ns.errored == old(ns.errored) + r.unknown
    ensures ns.lockedByAnother == old(ns.lockedByAnother) + r.another
    ensures fleet.HeldOtherwise() == old(fleet.HeldOtherwise())
    ensures said.Keys == old(ns.locked)
    ensures AnswersAre(old(fleet.answers), fleet.answers, fleet.client, UnlockReq, "", said)
    ensures ns.active == Where(said, Unlocked) && ns.errored == old(ns.errored) + Where(said, LockUnknown)
    ensures ns.lockedByAnother == old(ns.lockedByAnother) + Where(said, LockedByAnother)
  {
    hide *;
    r, changed, said := RizzoLockNodes(fleet, UnlockReq, "", ns.locked);
    ns.active := r.unlocked;
    ns.errored := ns.errored + r.unknown;
    ns.locked := {};
    ns.lockedByAnother := ns.lockedByAnother + r.another;
  }

  /** What a lock attempt leaves behind: `lost` nodes were locked, but the answer
      never arrived; `stuck` nodes were to be unlocked again, in vain. */
  datatype Leak = Leak(lost: set<Host>, stuck: set<Host>)

  /** A lock attempt that stands: the nodes held before (`h0`) and after (`h1`)
      it differ by the locked and the lost ones. */
  ghost predicate LocksStand(r: Replies, leak: Leak, h0: set<Host>, h1: set<Host>, g0: set<Host>, g1: set<Host>) {
    && leak.lost <= r.unknown && leak.stuck == {} && (r.locked + leak.lost) !! h0
    && h1 == h0 + r.locked + leak.lost && g1 == g0 + r.locked && g1 <= h1
  }

  /** A lock attempt that was rolled back: the nodes held before and after it
      differ by the leaked ones, hence are the same exactly when nothing leaked. */
  ghost predicate RolledBack(r: Replies, leak: Leak, h0: set<Host>, h1: set<Host>, g0: set<Host>, g1: set<Host>) {
    && leak.lost <= r.unknown && leak.stuck <= r.locked
    && leak.lost !! h0 && leak.stuck !! h0
    && h1 == h0 + leak.lost + leak.stuck && g1 == g0 && g1 <= h1
    && (h1 == h0 <==> leak == Leak({}, {}))
  }

  lemma Stand(r: Replies, c: set<Host>, nodes: set<Host>, h0: set<Host>, h1: set<Host>, g0: set<Host>, g1: set<Host>)
    returns (leak: Leak)
    requires Round(LockReq, r, c, nodes, h0, h1, g0, g1) && g0 <= h0
    ensures LocksStand(r, leak, h0, h1, g0, g1)
  {
    leak := Leak(c - r.locked, {});
  }

  lemma StandGrants(r: Replies, leak: Leak, h0: set<Host>, h1: set<Host>, g0: set<Host>, g1: set<Host>)
    requires LocksStand(r, leak, h0, h1, g0, g1)
    ensures r.locked <= g1 <= h1
  {
  }

  lemma RolledBackGrants(r: Replies, leak: Leak, h0: set<Host>, h1: set<Host>, g0: set<Host>, g1: set<Host>)
    requires RolledBack(r, leak, h0, h1, g0, g1)
    ensures g0 == g1 <= h1
  {
  }

  lemma LockRound(r: Replies, c: set<Host>, nodes: set<Host>, h0: set<Host>, h1: set<Host>, g0: set<Host>,
                  g1: set<Host>)
    requires Round(LockReq, r, c, nodes, h0, h1, g0, g1)
    ensures r.Deals(nodes) && r.unlocked == {}
  {
  }

  lemma RollBack(r: Replies, c1: set<Host>, nodes: set<Host>, h0: set<Host>, h1: set<Host>, g0: set<Host>,
                 g1: set<Host>,
                 u: Replies, c2: set<Host>, h2: set<Host>, g2: set<Host>) returns (leak: Leak)
    requires Round(LockReq, r, c1, nodes, h0, h1, g0, g1) && Round(UnlockReq, u, c2, r.locked, h1, h2, g1, g2)
    requires g0 <= h0
    ensures RolledBack(r, leak, h0, h2, g0, g2)
    ensures leak.stuck <= u.unknown
    ensures leak == Leak({}, {}) ==> c1 == c2
  {
    leak := Leak(c1 - r.locked, r.locked - c2);
  }

  /** Lock files come back exactly as they were when nothing leaked. */
  lemma RollBackTrace(c: set<Host>, l0: map<Host, Lock>, l1: map<Host, Lock>, l2: map<Host, Lock>)
    requires LockTrace(LockReq, c, l0, l1) && LockTrace(UnlockReq, c, l1, l2)
    ensures l2 == l0
  {
  }

  /** The nodes were asked for their locks; unless that went well, exactly
      those that gave them were asked to take them back. */
  ghost predicate LockTalk(log0: seq<NodeAnswer>, log1: seq<NodeAnswer>, user: User, comment: string,
                           said: map<Host, LockStatus>, ok: bool)
  {
    exists log, undone ::
      && AnswersAre(log0, log, user, LockReq, comment, said) && AnswersAre(log, log1, user, UnlockReq, "", undone)
      && undone.Keys == if ok then {} else Where(said, LockedByUser)
  }

  lemma TalkIs(log0: seq<NodeAnswer>, log: seq<NodeAnswer>, log1: seq<NodeAnswer>, user: User, comment: string,
               said: map<Host, LockStatus>, undone: map<Host, LockStatus>, ok: bool)
    requires AnswersAre(log0, log, user, LockReq, comment, said) && AnswersAre(log, log1, user, UnlockReq, "", undone)
    requires undone.Keys == if ok then {} else Where(said, LockedByUser)
    ensures LockTalk(log0, log1, user, comment, said, ok)
  {
  }

  /** Locks every active node, or none: above a threshold the nodes just locked
      are unlocked again. `r` are the answers to the lock requests. */
  method LockNodeSet(ns: NodeSet, fleet: Fleet, comment: string)
    returns (ok: bool, ghost r: Replies, ghost leak: Leak, ghost said: map<Host, LockStatus>)
    requires fleet.granted <= fleet.Held()
    modifies ns`active, ns`errored, ns`locked, ns`lockedByAnother
    modifies fleet`locks, fleet`disturbed, fleet`granted, fleet`answers
    ensures r.Deals(old(ns.active)) && r.unlocked == {}
    ensures said.Keys == old(ns.active) && LockTalk(old(fleet.answers), fleet.answers, fleet.client, comment, said, ok)
    ensures r.locked == Where(said, LockedByUser)
    ensures r.another == Where(said, LockedByAnother) && r.unknown == Where(said, LockUnknown)
    ensures ok <==> !Exceeds(ns.thresholds, old(ns.errored) + Where(said, LockUnknown), Where(said, LockedByAnother))
    ensures ok ==> ns.active == ns.locked == Where(said, LockedByUser)
    ensures ok ==> ns.active == ns.locked == r.locked
                   && ns.errored == old(ns.errored) + r.unknown && ns.lockedByAnother == r.another
                   && LocksStand(r, leak, old(fleet.Held()), fleet.Held(), old(fleet.granted), fleet.granted)
    ensures !ok ==> ns.locked == {} && leak.stuck <= ns.errored && ns.ThresholdExceeded()
                    && RolledBack(r, leak, old(fleet.Held()), fleet.Held(), old(fleet.granted), fleet.granted)
    ensures !ok && leak == Leak({}, {}) && !fleet.disturbed ==> fleet.locks == old(fleet.locks)
    ensures fleet.HeldOtherwise() == old(fleet.HeldOtherwise())
  {
    hide *;
    ghost var h0, g0, l0, a0 := fleet.Held(), fleet.granted, fleet.locks, fleet.answers;
    ghost var c1;
    var replies;
    replies, c1, said := RizzoLockNodes(fleet, LockReq, comment, ns.active);
    ghost var a1 := fleet.answers;
    ghost var h1, g1, l1 := fleet.Held(), fleet.granted, fleet.locks;
    r := replies;
    LockRound(r, c1, old(ns.active), h0, h1, g0, g1);
    ns.active := replies.locked;
    ns.locked := replies.locked;
    ns.errored := ns.errored + replies.unknown;
    ns.lockedByAnother := replies.another;
    ExceededIs(ns);
    if ns.ThresholdExceeded() {
      ghost var errored1 := ns.errored;
      var u;
      ghost var c2, undone;
      u, c2, undone := UnlockNodeSet(ns, fleet);
      TalkIs(a0, a1, fleet.answers, fleet.client, comment, said, undone, false);
      leak := RollBack(r, c1, old(ns.active), h0, h1, g0, g1, u, c2, fleet.Held(), fleet.granted);
      ExceedsMore(ns.thresholds, errored1, ns.errored, r.another, ns.lockedByAnother);
      ExceededIs(ns);
      if !fleet.disturbed && leak == Leak({}, {}) {
        RollBackTrace(c1, l0, l1, fleet.locks);
      }
      return false, r, leak, said;
    }
    leak := Stand(r, c1, old(ns.active), h0, h1, g0, g1);
    AnswersStart(a1, fleet.client, UnlockReq, "");
    TalkIs(a0, a1, a1, fleet.client, comment, said, map[], true);
    return true, r, leak, said;
  }

  // -------------------------------------------------------- asking the nodes

  ghost predicate Dialed(hosts: seq<Host>, nodes: set<Host>, errNodes: set<Host>) {
    && (forall h :: h in nodes || h in errNodes <==> h in hosts)
    && (Distinct(hosts) ==> nodes !! errNodes)
  }

  /** Dials hosts concurrently; `fails` says which dials do. A host listed twice
      is dialled twice, as two nodes. */
  method DialNodes(hosts: seq<Host>, fails: nat -> bool) returns (nodes: set<Host>, errNodes: set<Host>)
    ensures Dialed(hosts, nodes, errNodes)
    ensures forall h :: h in nodes <==> exists i :: 0 <= i < |hosts| && hosts[i] == h && !fails(i)
    ensures forall h :: h in errNodes <==> exists i :: 0 <= i < |hosts| && hosts[i] == h && fails(i)
  {
    nodes, errNodes := {}, {};
    for i := 0 to |hosts|
      invariant forall h :: h in nodes <==> exists j :: 0 <= j < i && hosts[j] == h && !fails(j)
      invariant forall h :: h in errNodes <==> exists j :: 0 <= j < i && hosts[j] == h && fails(j)
    {
      if fails(i) {
        errNodes := errNodes + {hosts[i]};
      } else {
        nodes := nodes + {hosts[i]};
      }
    }
    forall h ensures h in nodes || h in errNodes <==> h in hosts {
      if h in hosts {
        var i :| 0 <= i < |hosts| && hosts[i] == h;
        assert fails(i) || !fails(i);
      }
    }
  }

  /** `nodesToDial` is what the configuration makes of the name of the set. */
  method DialNodeSet(ns: NodeSet, nodesToDial: Reply<seq<Host>>, fails: nat -> bool) returns (ok: bool)
    modifies ns`dialed, ns`active, ns`errored
    ensures ok <==> nodesToDial.Answer? && !ns.ThresholdExceeded()
    ensures nodesToDial.Answer? ==> Dialed(nodesToDial.value, ns.active, ns.errored) && ns.dialed == ns.active
    ensures nodesToDial.Answer? ==> forall h :: h in ns.active <==>
              exists i :: 0 <= i < |nodesToDial.value| && nodesToDial.value[i] == h && !fails(i)
    ensures nodesToDial.Answer? ==> forall h :: h in ns.errored <==>
              exists i :: 0 <= i < |nodesToDial.value| && nodesToDial.value[i] == h && fails(i)
  {
    if nodesToDial.Failed? {
      return false;
    }
    ns.dialed, ns.errored := DialNodes(nodesToDial.value, fails);
    ns.active := ns.dialed;
    return !ns.ThresholdExceeded();
  }

  /** Keeps the nodes that are free or the client's own. */
  method EligibleNodeSet(ns: NodeSet, fleet: Fleet) returns (ghost r: Replies, ghost said: map<Host, LockStatus>)
    modifies ns`active, ns`errored, ns`lockedByAnother, fleet`locks, fleet`disturbed, fleet`granted, fleet`answers
    ensures r.Deals(old(ns.active))
    ensures ns.active == r.locked + r.unlocked && ns.lockedByAnother == r.another
    ensures ns.errored == old(ns.errored) + r.unknown
    ensures fleet.Held() == old(fleet.Held()) && fleet.granted == old(fleet.granted)
    ensures fleet.HeldOtherwise() == old(fleet.HeldOtherwise())
    ensures said.Keys == old(ns.active)
    ensures AnswersAre(old(fleet.answers), fleet.answers, fleet.client, StateReq, "", said)
    ensures ns.active == Where(said, LockedByUser) + Where(said, Unlocked)
    ensures ns.lockedByAnother == Where(said, LockedByAnother)
    ensures ns.errored == old(ns.errored) + Where(said, LockUnknown)
    ensures r.another == Where(said, LockedByAnother) && r.unknown == Where(said, LockUnknown)
  {
    hide AnswersAre, Where, LockTrace;
    var replies;
    ghost var changed;
    replies, changed, said := RizzoLockNodes(fleet, StateReq, "", ns.active);
    ns.active := replies.locked + replies.unlocked;
    ns.errored := ns.errored + replies.unknown;
    ns.lockedByAnother := replies.another;
    r := replies;
  }

  datatype ApplyStatus = LastApplyClean(oid: Oid) | LastApplyDirty | LastApplyErrored

  /** A commit the repository does not know counts as dirty. */
  function ParseLastApply(v: ConfVersion, commits: set<Oid>): ApplyStatus {
    match v
    case CleanVersion(oid) => if oid in commits then LastApplyClean(oid) else LastApplyDirty
    case DirtyVersion(_) => LastApplyDirty
    case UnparseableVersion => LastApplyErrored
  }

  /** What became of the nodes asked for their last apply. */
  datatype Asked = Asked(unknown: set<Host>, another: set<Host>, noLastApply: set<Host>, known: set<Host>)
  {
    ghost predicate Deals(hosts: set<Host>) {
      && unknown + another + noLastApply + known == hosts
      && unknown !! another !! noLastApply !! known
    }
  }

  /** The nodes' last applies are what the nodes report, commits of the repository. */
  ghost predicate KnowsLastApplies(lastApply: map<Host, Oid>, versions: map<Host, ConfVersion>, commits: set<Oid>,
                                   hosts: set<Host>)
  {
    forall h :: h in hosts ==> h in lastApply && lastApply[h] in commits
                               && VersionAt(versions, h) == CleanVersion(lastApply[h])
  }

  /** These nodes, each of them once, were asked for their last apply and answered so. */
  ghost predicate VersionsAre(log0: seq<NodeAnswer>, log1: seq<NodeAnswer>, told: map<Host, Reply<ConfVersion>>) {
    && log0 <= log1
    && (forall i :: |log0| <= i < |log1| ==>
                      log1[i].host in told && log1[i] == VersionAnswer(log1[i].host, told[log1[i].host]))
    && (forall h :: h in told ==> exists i :: |log0| <= i < |log1| && log1[i].host == h)
    && (forall i, j :: |log0| <= i < j < |log1| ==> log1[i].host != log1[j].host)
  }

  lemma VersionsStep(log0: seq<NodeAnswer>, log1: seq<NodeAnswer>, told: map<Host, Reply<ConfVersion>>, host: Host,
                     version: Reply<ConfVersion>)
    requires VersionsAre(log0, log1, told) && host !in told
    ensures VersionsAre(log0, log1 + [VersionAnswer(host, version)], told[host := version])
  {
    var log2, told2 := log1 + [VersionAnswer(host, version)], told[host := version];
    forall h | h in told2 ensures exists i :: |log0| <= i < |log2| && log2[i].host == h {
      if h == host {
        assert log2[|log1|].host == h;
      } else {
        var i :| |log0| <= i < |log1| && log1[i].host == h;
        assert log2[i].host == h;
      }
    }
  }

  /** The nodes whose last apply is known are those that answered with a clean
      commit of the repository; it is that commit. */
  ghost predicate KnownAsTold(lastApply: map<Host, Oid>, known: set<Host>, told: map<Host, Reply<ConfVersion>>,
                              commits: set<Oid>)
  {
    && (forall h :: h in known <==>
                    h in told && told[h].Answer? && told[h].value.CleanVersion? && told[h].value.oid in commits)
    && (forall h :: h in known ==> h in lastApply && told[h] == Answer(CleanVersion(lastApply[h])))
  }

  lemma KnownStart(lastApply: map<Host, Oid>, commits: set<Oid>, log: seq<NodeAnswer>)
    ensures KnownAsTold(lastApply, {}, map[], commits) && VersionsAre(log, log, map[])
  {
  }

  lemma KnownStep(lastApply: map<Host, Oid>, known: set<Host>, told: map<Host, Reply<ConfVersion>>, commits: set<Oid>,
                  host: Host, r: Reply<ConfVersion>, status: ApplyStatus)
    requires KnownAsTold(lastApply, known, told, commits) && host !in told
    requires status == if r.Failed? then LastApplyErrored else ParseLastApply(r.value, commits)
    ensures status.LastApplyClean? ==>
              KnownAsTold(lastApply[host := status.oid], known + {host}, told[host := r], commits)
              && r == Answer(CleanVersion(status.oid)) && status.oid in commits
    ensures !status.LastApplyClean? ==> KnownAsTold(lastApply, known, told[host := r], commits)
  {
  }

  method AskLastApply(fleet: Fleet, commits: set<Oid>, host: Host)
    returns (status: ApplyStatus, ghost r: Reply<ConfVersion>)
    modifies fleet`answers
    ensures fleet.answers == old(fleet.answers) + [VersionAnswer(host, r)]
    ensures r.Answer? ==> r.value == VersionAt(fleet.versions, host)
    ensures status == if r.Failed? then LastApplyErrored else ParseLastApply(r.value, commits)
  {
    var reply := fleet.PuppetLastApply(host);
    r := reply;
    status := if reply.Failed? then LastApplyErrored else ParseLastApply(reply.value, commits);
  }

  method AskLastApplies(ns: NodeSet, fleet: Fleet, commits: set<Oid>, hosts: set<Host>)
    returns (known: set<Host>, errNodes: set<Host>, ghost told: map<Host, Reply<ConfVersion>>)
    modifies ns`lastApply, fleet`answers
    ensures Dealt(hosts, known, errNodes, {})
    ensures KnowsLastApplies(ns.lastApply, fleet.versions, commits, known)
    ensures ns.lastApply.Keys == old(ns.lastApply).Keys + known
    ensures told.Keys == hosts && VersionsAre(old(fleet.answers), fleet.answers, told)
    ensures KnownAsTold(ns.lastApply, known, told, commits)
  {
    hide *;
    known, errNodes, told := {}, {}, map[];
    var rest := hosts;
    AskStart(hosts, ns.lastApply, fleet.versions, commits);
    KnownStart(ns.lastApply, commits, fleet.answers);
    while rest != {}
      invariant Dealt(hosts, known, errNodes, rest)
      invariant KnowsLastApplies(ns.lastApply, fleet.versions, commits, known)
      invariant ns.lastApply.Keys == old(ns.lastApply).Keys + known
      invariant told.Keys + rest == hosts && told.Keys !! rest && VersionsAre(old(fleet.answers), fleet.answers, told)
      invariant KnownAsTold(ns.lastApply, known, told, commits)
      decreases |rest|
    {
      var host :| host in rest;
      DoneStep(hosts, told.Keys, rest, host);
      AlsoKnown(old(ns.lastApply), known, host);
      known, errNodes, told :=
        AskOne(ns, fleet, commits, host, known, errNodes, hosts, rest, old(fleet.answers), told);
      rest := rest - {host};
    }
  }

  /** One node's part of it. */
  method AskOne(ns: NodeSet, fleet: Fleet, commits: set<Oid>, host: Host, known0: set<Host>, errNodes0: set<Host>,
                ghost hosts: set<Host>, ghost rest: set<Host>, ghost answers0: seq<NodeAnswer>,
                ghost told0: map<Host, Reply<ConfVersion>>)
    returns (known: set<Host>, errNodes: set<Host>, ghost told: map<Host, Reply<ConfVersion>>)
    requires Dealt(hosts, known0, errNodes0, rest) && host in rest
    requires host !in told0 && VersionsAre(answers0, fleet.answers, told0)
    requires KnowsLastApplies(ns.lastApply, fleet.versions, commits, known0)
    requires KnownAsTold(ns.lastApply, known0, told0, commits)
    modifies ns`lastApply, fleet`answers
    ensures Dealt(hosts, known, errNodes, rest - {host})
    ensures told.Keys == told0.Keys + {host} && VersionsAre(answers0, fleet.answers, told)
    ensures KnowsLastApplies(ns.lastApply, fleet.versions, commits, known)
    ensures KnownAsTold(ns.lastApply, known, told, commits)
    ensures (known == known0 && ns.lastApply == old(ns.lastApply))
            || (known == known0 + {host} && ns.lastApply.Keys == old(ns.lastApply).Keys + {host})
  {
    hide *;
    DealtStep(hosts, known0, errNodes0, rest, host);
    known, errNodes := known0, errNodes0;
    ghost var answers1 := fleet.answers;
    var status;
    ghost var r;
    status, r := AskLastApply(fleet, commits, host);
    VersionsStep(answers0, answers1, told0, host, r);
    KnownStep(ns.lastApply, known, told0, commits, host, r, status);
    told := told0[host := r];
    AnsweredBy(told0, host, r);
    match status {
      case LastApplyClean(oid) =>
        KnowsStep(ns.lastApply, fleet.versions, commits, known, host, oid);
        ns.lastApply := ns.lastApply[host := oid];
        known := known + {host};
      case LastApplyDirty => errNodes := errNodes + {host};
      case LastApplyErrored => errNodes := errNodes + {host};
    }
  }

  lemma AskStart(hosts: set<Host>, lastApply: map<Host, Oid>, versions: map<Host, ConfVersion>, commits: set<Oid>)
    ensures Dealt(hosts, {}, {}, hosts) && KnowsLastApplies(lastApply, versions, commits, {})
  {
  }

  lemma KnowsStep(lastApply: map<Host, Oid>, versions: map<Host, ConfVersion>, commits: set<Oid>, hosts: set<Host>,
                  host: Host, oid: Oid)
    requires KnowsLastApplies(lastApply, versions, commits, hosts)
    requires oid in commits && VersionAt(versions, host) == CleanVersion(oid)
    ensures KnowsLastApplies(lastApply[host := oid], versions, commits, hosts + {host})
    ensures lastApply[host := oid].Keys == lastApply.Keys + {host}
  {
  }

  lemma AlsoKnown(lastApply: map<Host, Oid>, hosts: set<Host>, host: Host)
    ensures lastApply.Keys + hosts + {host} == lastApply.Keys + (hosts + {host})
  {
  }

  lemma AskedDeals(r: Replies, nodes: set<Host>, known: set<Host>, errNodes: set<Host>, errored0: set<Host>)
    requires r.Deals(nodes) && Dealt(r.locked + r.unlocked, known, errNodes, {})
    ensures AskedOutcome(Asked(r.unknown, r.another, errNodes, known), nodes, errored0,
                         known, errored0 + r.unknown + errNodes, r.another)
  {
  }

  /** A node set (`active0`, `errored0`) after it was asked for the last applies. */
  ghost predicate AskedOutcome(a: Asked, active0: set<Host>, errored0: set<Host>,
                               active: set<Host>, errored: set<Host>, lockedByAnother: set<Host>)
  {
    && a.Deals(active0) && active == a.known && lockedByAnother == a.another
    && errored == errored0 + a.unknown + a.noLastApply
  }

  /** Hosts given once each are dealt out between the three sets of a node set. */
  lemma NodesAccounted(hosts: seq<Host>, active0: set<Host>, errored0: set<Host>, a: Asked,
                       active: set<Host>, errored: set<Host>, lockedByAnother: set<Host>)
    requires Distinct(hosts)
    requires Dialed(hosts, active0, errored0)
    requires AskedOutcome(a, active0, errored0, active, errored, lockedByAnother)
    ensures active !! errored !! lockedByAnother
    ensures forall h :: h in active + errored + lockedByAnother <==> h in hosts
    ensures |active| + |errored| + |lockedByAnother| == |hosts|
  {
    assert active + errored + lockedByAnother == set h | h in hosts;
    DistinctCount(hosts);
  }

  lemma {:induction false} DistinctCount(hosts: seq<Host>)
    requires Distinct(hosts)
    ensures |set h | h in hosts| == |hosts|
  {
    if hosts != [] {
      var rest, last := hosts[..|hosts|-1], hosts[|hosts|-1];
      DistinctCount(rest);
      assert (set h | h in hosts) == (set h | h in rest) + {last};
    }
  }

  /** The nodes were asked for their lock states, and some for their last applies. */
  ghost predicate StateTalk(log0: seq<NodeAnswer>, log1: seq<NodeAnswer>, user: User, said: map<Host, LockStatus>,
                            told: map<Host, Reply<ConfVersion>>)
  {
    exists log :: AnswersAre(log0, log, user, StateReq, "", said) && VersionsAre(log, log1, told)
  }

  lemma StateTalkIs(log0: seq<NodeAnswer>, log: seq<NodeAnswer>, log1: seq<NodeAnswer>, user: User,
                    said: map<Host, LockStatus>, told: map<Host, Reply<ConfVersion>>)
    requires AnswersAre(log0, log, user, StateReq, "", said) && VersionsAre(log, log1, told)
    ensures StateTalk(log0, log1, user, said, told)
  {
  }

  /** The node did not answer with a clean commit of the repository when asked for its last apply. */
  ghost predicate ToldUnclean(log: seq<NodeAnswer>, from: nat, h: Host, commits: set<Oid>) {
    exists i :: from <= i < |log| && log[i].VersionAnswer? && log[i].host == h
                && forall c :: c in commits ==> log[i].version != Answer(CleanVersion(c))
  }

  lemma ToldAnswers(log0: seq<NodeAnswer>, log1: seq<NodeAnswer>, user: User, kind: LockReqType, comment: string,
                    said: map<Host, LockStatus>, k: LockReqType, h: Host, status: LockStatus, commits: set<Oid>)
    requires AnswersAre(log0, log1, user, kind, comment, said)
    ensures log0 <= log1 && !ToldUnclean(log1, |log0|, h, commits)
    ensures Told(log1, |log0|, k, h, status) <==> k == kind && h in said && said[h] == status
  {
    if h in said {
      var i :| |log0| <= i < |log1| && log1[i].host == h;
    }
  }

  lemma ToldVersions(log0: seq<NodeAnswer>, log1: seq<NodeAnswer>, told: map<Host, Reply<ConfVersion>>,
                     lastApply: map<Host, Oid>, known: set<Host>, commits: set<Oid>, k: LockReqType, h: Host,
                     status: LockStatus)
    requires VersionsAre(log0, log1, told) && KnownAsTold(lastApply, known, told, commits)
    ensures log0 <= log1 && !Told(log1, |log0|, k, h, status)
    ensures ToldUnclean(log1, |log0|, h, commits) <==> h in told && h !in known
  {
    if h in told {
      var i :| |log0| <= i < |log1| && log1[i].host == h;
      assert log1[i] == VersionAnswer(h, told[h]);
    }
  }

  lemma ToldSplit(log0: seq<NodeAnswer>, log1: seq<NodeAnswer>, log2: seq<NodeAnswer>, k: LockReqType, h: Host,
                  status: LockStatus, commits: set<Oid>)
    requires log0 <= log1 <= log2
    ensures Told(log2, |log0|, k, h, status) <==>
            Told(log1, |log0|, k, h, status) || Told(log2, |log1|, k, h, status)
    ensures ToldUnclean(log2, |log0|, h, commits) <==>
            ToldUnclean(log1, |log0|, h, commits) || ToldUnclean(log2, |log1|, h, commits)
  {
    forall i | 0 <= i < |log1| ensures log1[i] == log2[i] {
    }
    if Told(log1, |log0|, k, h, status) {
      var i :| |log0| <= i < |log1| && log1[i].LockAnswer?
               && log1[i].host == h && log1[i].kind == k && log1[i].status == status;
      assert log2[i] == log1[i];
    }
    if ToldUnclean(log1, |log0|, h, commits) {
      var i :| |log0| <= i < |log1| && log1[i].VersionAnswer? && log1[i].host == h
               && forall c :: c in commits ==> log1[i].version != Answer(CleanVersion(c));
      assert log2[i] == log1[i];
    }
  }

  /** Who dropped out when the nodes were asked is what they answered. */
  ghost predicate StatesTold(log0: seq<NodeAnswer>, log1: seq<NodeAnswer>, a: Asked, commits: set<Oid>) {
    && log0 <= log1
    && (forall h :: && (Told(log1, |log0|, StateReq, h, LockUnknown) <==> h in a.unknown)
                    && (Told(log1, |log0|, StateReq, h, LockedByAnother) <==> h in a.another)
                    && (ToldUnclean(log1, |log0|, h, commits) <==> h in a.noLastApply))
    && forall h, s :: !Told(log1, |log0|, LockReq, h, s)
  }

  lemma TalkTold(log0: seq<NodeAnswer>, log: seq<NodeAnswer>, log1: seq<NodeAnswer>, user: User,
                 said: map<Host, LockStatus>, told: map<Host, Reply<ConfVersion>>, lastApply: map<Host, Oid>,
                 a: Asked, commits: set<Oid>)
    requires AnswersAre(log0, log, user, StateReq, "", said) && VersionsAre(log, log1, told)
    requires KnownAsTold(lastApply, a.known, told, commits)
    requires a.unknown == Where(said, LockUnknown) && a.another == Where(said, LockedByAnother)
    requires a.noLastApply == told.Keys - a.known
    ensures StatesTold(log0, log1, a, commits)
  {
    hide AnswersAre, VersionsAre, KnownAsTold, Told, ToldUnclean;
    forall k: LockReqType, h, s: LockStatus
      ensures log0 <= log1
      ensures Told(log1, |log0|, k, h, s) <==> k == StateReq && h in said && said[h] == s
      ensures ToldUnclean(log1, |log0|, h, commits) <==> h in a.noLastApply
    {
      ToldAnswers(log0, log, user, StateReq, "", said, k, h, s, commits);
      ToldVersions(log, log1, told, lastApply, a.known, commits, k, h, s);
      ToldSplit(log0, log, log1, k, h, s, commits);
    }
    assert log0 <= log1 by {
      ToldAnswers(log0, log, user, StateReq, "", said, StateReq, "", Unlocked, commits);
      ToldVersions(log, log1, told, lastApply, a.known, commits, StateReq, "", Unlocked);
    }
  }

  lemma NotKnown(nodes: set<Host>, known: set<Host>, errNodes: set<Host>)
    requires Dealt(nodes, known, errNodes, {})
    ensures errNodes == nodes - known
  {
  }

  method LastApplyNodeSet(ns: NodeSet, fleet: Fleet, commits: set<Oid>)
    returns (ok: bool, ghost a: Asked, ghost said: map<Host, LockStatus>, ghost told: map<Host, Reply<ConfVersion>>)
    modifies ns`active, ns`errored, ns`lockedByAnother, ns`lastApply
    modifies fleet`locks, fleet`disturbed, fleet`granted, fleet`answers
    ensures ok <==> !ns.ThresholdExceeded()
    ensures ok ==> AskedOutcome(a, old(ns.active), old(ns.errored), ns.active, ns.errored, ns.lockedByAnother)
    ensures ok ==> KnowsLastApplies(ns.lastApply, fleet.versions, commits, ns.active)
    ensures ok ==> ns.lastApply.Keys == old(ns.lastApply).Keys + ns.active
    ensures fleet.Held() == old(fleet.Held()) && fleet.granted == old(fleet.granted)
    ensures fleet.HeldOtherwise() == old(fleet.HeldOtherwise())
    ensures said.Keys == old(ns.active) && StateTalk(old(fleet.answers), fleet.answers, fleet.client, said, told)
    ensures ok ==> told.Keys == Where(said, LockedByUser) + Where(said, Unlocked)
    ensures ok ==> KnownAsTold(ns.lastApply, ns.active, told, commits)
    ensures ok ==> a.another == Where(said, LockedByAnother) && a.unknown == Where(said, LockUnknown)
    ensures ok ==> StatesTold(old(fleet.answers), fleet.answers, a, commits)
  {
    hide *;
    ghost var r, a0 := Replies({}, {}, {}, {}), fleet.answers;
    r, said := EligibleNodeSet(ns, fleet);
    ghost var a1 := fleet.answers;
    a, told := Asked(r.unknown, r.another, {}, {}), map[];
    KnownStart(ns.lastApply, commits, fleet.answers);
    StateTalkIs(a0, a1, a1, fleet.client, said, told);
    if ns.ThresholdExceeded() {
      return false, a, said, told;
    }
    var lastApplyNodes, errNodes;
    lastApplyNodes, errNodes, told := AskLastApplies(ns, fleet, commits, ns.active);
    StateTalkIs(a0, a1, fleet.answers, fleet.client, said, told);
    ns.active := lastApplyNodes;
    ns.errored := ns.errored + errNodes;
    a := Asked(r.unknown, r.another, errNodes, lastApplyNodes);
    AskedDeals(r, old(ns.active), lastApplyNodes, errNodes, old(ns.errored));
    NotKnown(told.Keys, lastApplyNodes, errNodes);
    TalkTold(a0, a1, fleet.answers, fleet.client, said, told, ns.lastApply, a, commits);
    ok := !ns.ThresholdExceeded();
  }

  // --------------------------------------------------------------- applying

  /** One call per node, and nothing else, was made. */
  ghost predicate CallsAre(log0: seq<ApplyCall>, log1: seq<ApplyCall>, calls: map<Host, ApplyCall>) {
    && log0 <= log1
    && (forall i :: |log0| <= i < |log1| ==> log1[i].host in calls && calls[log1[i].host] == log1[i])
    && (forall h :: h in calls ==> exists i :: |log0| <= i < |log1| && log1[i] == calls[h])
    && (forall i, j :: |log0| <= i < j < |log1| ==> log1[i].host != log1[j].host)
  }

  lemma CallsAppend(log0: seq<ApplyCall>, log1: seq<ApplyCall>, calls: map<Host, ApplyCall>, e: ApplyCall)
    requires CallsAre(log0, log1, calls) && e.host !in calls
    ensures CallsAre(log0, log1 + [e], calls[e.host := e])
  {
    var log2, calls2 := log1 + [e], calls[e.host := e];
    forall h | h in calls2 ensures exists i :: |log0| <= i < |log2| && log2[i] == calls2[h] {
      if h == e.host {
        assert log2[|log1|] == calls2[h];
      } else {
        var i :| |log0| <= i < |log1| && log1[i] == calls[h];
        assert log2[i] == calls2[h];
      }
    }
  }

  ghost predicate AllHonest(calls: map<Host, ApplyCall>) {
    forall h :: h in calls ==> Honest(calls[h])
  }

  /** The calls as they were to be made, and what they left of the versions. */
  ghost predicate CallsFit(calls: map<Host, ApplyCall>, rev: Oid, noop: bool, granted: set<Host>,
                           v0: map<Host, ConfVersion>, v1: map<Host, ConfVersion>)
  {
    && (forall h :: h in calls ==>
                      && calls[h].host == h && calls[h].rev == rev && calls[h].noop == noop
                      && calls[h].underGrant == (h in granted)
                      && calls[h].before == VersionAt(v0, h) && calls[h].after == VersionAt(v1, h))
    && (forall h :: h !in calls ==> VersionAt(v0, h) == VersionAt(v1, h))
  }

  /** The same, whatever locks were held. */
  ghost predicate CallsTook(calls: map<Host, ApplyCall>, rev: Oid, noop: bool,
                            v0: map<Host, ConfVersion>, v1: map<Host, ConfVersion>)
  {
    && (forall h :: h in calls ==>
                      && calls[h].host == h && calls[h].rev == rev && calls[h].noop == noop
                      && calls[h].before == VersionAt(v0, h) && calls[h].after == VersionAt(v1, h))
    && (forall h :: h !in calls ==> VersionAt(v0, h) == VersionAt(v1, h))
  }

  ghost function Successes(calls: map<Host, ApplyCall>): set<Host> {
    set h | h in calls && Succeeded(calls[h])
  }

  /** Puppet answered, and reported that the apply failed. */
  predicate ReportedFailure(e: ApplyCall) {
    e.reply.Done? && e.reply.report.failed
  }

  ghost function Failures(calls: map<Host, ApplyCall>): set<Host> {
    set h | h in calls && ReportedFailure(calls[h])
  }

  lemma CallsFitStep(calls: map<Host, ApplyCall>, rev: Oid, noop: bool, granted: set<Host>, v0: map<Host, ConfVersion>,
                     v1: map<Host, ConfVersion>, e: ApplyCall, v2: map<Host, ConfVersion>)
    requires CallsFit(calls, rev, noop, granted, v0, v1) && e.host !in calls
    requires e.rev == rev && e.noop == noop && e.underGrant == (e.host in granted)
    requires e.before == VersionAt(v1, e.host) && e.after == VersionAt(v2, e.host)
    requires forall h :: h != e.host ==> VersionAt(v1, h) == VersionAt(v2, h)
    ensures CallsFit(calls[e.host := e], rev, noop, granted, v0, v2)
    ensures calls[e.host := e].Keys == calls.Keys + {e.host}
    ensures Successes(calls[e.host := e]) == if Succeeded(e) then Successes(calls) + {e.host} else Successes(calls)
    ensures Failures(calls[e.host := e]) == if ReportedFailure(e) then Failures(calls) + {e.host} else Failures(calls)
    ensures AllHonest(calls[e.host := e]) ==> AllHonest(calls) && Honest(e)
  {
  }

  /** The state of a round of applies: the calls made, and how they were filed. */
  ghost predicate Applying(log0: seq<ApplyCall>, log1: seq<ApplyCall>, calls: map<Host, ApplyCall>, rev: Oid,
                           noop: bool,
                           granted: set<Host>, v0: map<Host, ConfVersion>, v1: map<Host, ConfVersion>,
                           applied: set<Host>, failed: set<Host>, applyErrors: set<Host>)
  {
    && CallsAre(log0, log1, calls) && CallsFit(calls, rev, noop, granted, v0, v1)
    && failed == calls.Keys - Successes(calls) && applyErrors == Failures(calls)
    && (AllHonest(calls) ==> applied == Successes(calls))
  }

  lemma ApplyStep(log0: seq<ApplyCall>, log1: seq<ApplyCall>, calls: map<Host, ApplyCall>, rev: Oid, noop: bool,
                  granted: set<Host>, v0: map<Host, ConfVersion>, v1: map<Host, ConfVersion>,
                  applied: set<Host>, failed: set<Host>, applyErrors: set<Host>,
                  e: ApplyCall, v2: map<Host, ConfVersion>)
    requires Applying(log0, log1, calls, rev, noop, granted, v0, v1, applied, failed, applyErrors) && e.host !in calls
    requires e.rev == rev && e.noop == noop && e.underGrant == (e.host in granted)
    requires e.before == VersionAt(v1, e.host) && e.after == VersionAt(v2, e.host)
    requires forall h :: h != e.host ==> VersionAt(v1, h) == VersionAt(v2, h)
    ensures calls[e.host := e].Keys == calls.Keys + {e.host}
    ensures Succeeded(e) ==> Applying(log0, log1 + [e], calls[e.host := e], rev, noop, granted, v0, v2,
                                      applied + {e.reply.report.host}, failed, applyErrors)
    ensures !Succeeded(e) ==> Applying(log0, log1 + [e], calls[e.host := e], rev, noop, granted, v0, v2,
                                       applied, failed + {e.host},
                                       if ReportedFailure(e) then applyErrors + {e.host} else applyErrors)
  {
    CallsAppend(log0, log1, calls, e);
    CallsFitStep(calls, rev, noop, granted, v0, v1, e, v2);
    assert Successes(calls) <= calls.Keys;
  }

  lemma ApplyingStart(log: seq<ApplyCall>, rev: Oid, noop: bool, granted: set<Host>, v: map<Host, ConfVersion>)
    ensures Applying(log, log, map[], rev, noop, granted, v, v, {}, {}, {})
  {
  }

  /** One node's part of a round of applies. A successful report is filed under the host it names. */
  method ApplyOne(fleet: Fleet, host: Host, rev: Oid, noop: bool,
                  applied0: set<Host>, failed0: set<Host>, applyErrors0: set<Host>,
                  ghost log0: seq<ApplyCall>, ghost v0: map<Host, ConfVersion>, ghost calls0: map<Host, ApplyCall>)
    returns (applied: set<Host>, failed: set<Host>, applyErrors: set<Host>, ghost calls: map<Host, ApplyCall>)
    requires host !in calls0
    requires Applying(log0, fleet.log, calls0, rev, noop, fleet.granted, v0, fleet.versions, applied0, failed0,
                      applyErrors0)
    modifies fleet`versions, fleet`log
    ensures calls.Keys == calls0.Keys + {host}
    ensures Applying(log0, fleet.log, calls, rev, noop, fleet.granted, v0, fleet.versions, applied, failed, applyErrors)
  {
    ghost var log1, v1 := fleet.log, fleet.versions;
    var reply := fleet.PuppetApply(host, rev, noop);
    ghost var e := fleet.log[|log1|];
    ApplyStep(log0, log1, calls0, rev, noop, fleet.granted, v0, v1, applied0, failed0, applyErrors0, e, fleet.versions);
    calls := calls0[host := e];
    if reply.ApplyError? {
      return applied0, failed0 + {host}, applyErrors0, calls;
    } else if reply.report.failed {
      return applied0, failed0 + {host}, applyErrors0 + {host}, calls;
    } else {
      return applied0 + {reply.report.host}, failed0, applyErrors0, calls;
    }
  }

  /** Applies a revision to all the given nodes. */
  method ApplyAll(fleet: Fleet, hosts: set<Host>, rev: Oid, noop: bool)
    returns (applied: set<Host>, failed: set<Host>, applyErrors: set<Host>, ghost calls: map<Host, ApplyCall>)
    modifies fleet`versions, fleet`log
    ensures calls.Keys == hosts
    ensures Applying(old(fleet.log), fleet.log, calls, rev, noop, fleet.granted, old(fleet.versions), fleet.versions,
                     applied, failed, applyErrors)
  {
    hide Applying;
    applied, failed, applyErrors, calls := {}, {}, {}, map[];
    var rest := hosts;
    ghost var done: set<Host> := {};
    ApplyingStart(fleet.log, rev, noop, fleet.granted, fleet.versions);
    while rest != {}
      invariant done + rest == hosts && done !! rest && calls.Keys == done
      invariant Applying(old(fleet.log), fleet.log, calls, rev, noop, fleet.granted, old(fleet.versions),
                         fleet.versions,
                         applied, failed, applyErrors)
      decreases |rest|
    {
      var host :| host in rest;
      DoneStep(hosts, done, rest, host);
      applied, failed, applyErrors, calls := ApplyOne(fleet, host, rev, noop, applied, failed, applyErrors,
                                                      old(fleet.log), old(fleet.versions), calls);
      rest, done := rest - {host}, done + {host};
    }
    assert done == hosts;
  }

  /** The one thing that becomes of each node given to an apply. */
  datatype HostOutcome = StateUnknown | AnotherAtState | NoLastApply | BeyondRev
                       | LockFailed | AnotherAtLock | Applied | ApplyFailed

  ghost function OutcomeOf(hosts: set<Host>, a: Asked, beyond: set<Host>, r: Replies, successes: set<Host>)
    : map<Host, HostOutcome>
  {
    map h | h in hosts ::
      if h in a.unknown then StateUnknown
      else if h in a.another then AnotherAtState
      else if h in a.noLastApply then NoLastApply
      else if h in beyond then BeyondRev
      else if h in r.unknown then LockFailed
      else if h in r.another then AnotherAtLock
      else if h in successes then Applied
      else ApplyFailed
  }

  lemma OutcomeSets(hosts: set<Host>, a: Asked, beyond: set<Host>, r: Replies, successes: set<Host>)
    requires a.Deals(hosts) && beyond <= a.known && r.Deals(a.known - beyond) && r.unlocked == {}
    requires successes <= r.locked
    ensures var m := OutcomeOf(hosts, a, beyond, r, successes);
            && m.Keys == hosts
            && Where(m, StateUnknown) == a.unknown && Where(m, AnotherAtState) == a.another
            && Where(m, NoLastApply) == a.noLastApply && Where(m, BeyondRev) == beyond
            && Where(m, LockFailed) == r.unknown && Where(m, AnotherAtLock) == r.another
            && Where(m, Applied) == successes && Where(m, ApplyFailed) == r.locked - successes
  {
  }

  /** The sets an apply leaves behind, host by host (`unlockFailed`: applies
      whose unlock did not answer, counted as errors a second time). The nodes
      locked by another when their state was asked are no longer on record. */
  ghost predicate Accounts(outcome: map<Host, HostOutcome>, calls: map<Host, ApplyCall>, errored0: set<Host>,
                           applied: set<Host>, beyondRev: set<Host>, unlockFailed: set<Host>,
                           active: set<Host>, errored: set<Host>, lockedByAnother: set<Host>)
  {
    && beyondRev == Where(outcome, BeyondRev)
    && calls.Keys == Where(outcome, Applied) + Where(outcome, ApplyFailed)
    && Successes(calls) == Where(outcome, Applied)
    && (AllHonest(calls) ==> applied == Where(outcome, Applied))
    && active == applied + beyondRev && unlockFailed <= calls.Keys
    && errored == errored0 + Where(outcome, StateUnknown) + Where(outcome, NoLastApply) + Where(outcome, LockFailed)
                  + Where(outcome, ApplyFailed) + unlockFailed
    && lockedByAnother == Where(outcome, AnotherAtLock)
  }

  /** Every call was made under a granted lock, to a node that did not have the revision. */
  ghost predicate CallsDue(calls: map<Host, ApplyCall>, repo: Repo, rev: Oid) {
    forall h :: h in calls ==>
                  && calls[h].underGrant && calls[h].before.CleanVersion? && calls[h].before.oid in repo.parents
                  && rev !in History(repo, calls[h].before.oid)
  }

  method BeyondRevNodes(repo: Repo, lastApply: map<Host, Oid>, active: set<Host>, rev: Oid)
    returns (beyondRev: set<Host>, due: set<Host>)
    requires forall h :: h in active ==> h in lastApply && lastApply[h] in repo.parents
    ensures Dealt(active, beyondRev, due, {})
    ensures forall h :: h in beyondRev ==> h in lastApply && lastApply[h] in repo.parents
                                           && rev in History(repo, lastApply[h])
    ensures forall h :: h in due ==> h in lastApply && lastApply[h] in repo.parents
                                     && rev !in History(repo, lastApply[h])
  {
    beyondRev, due := {}, {};
    var rest := active;
    while rest != {}
      invariant Dealt(active, beyondRev, due, rest)
      invariant forall h :: h in beyondRev ==> h in lastApply && lastApply[h] in repo.parents
                                               && rev in History(repo, lastApply[h])
      invariant forall h :: h in due ==> h in lastApply && lastApply[h] in repo.parents
                                         && rev !in History(repo, lastApply[h])
      decreases |rest|
    {
      var host :| host in rest;
      DealtStep(active, beyondRev, due, rest, host);
      rest := rest - {host};
      if CommitAlreadyApplied(repo, lastApply[host], rev) {
        beyondRev := beyondRev + {host};
      } else {
        due := due + {host};
      }
    }
  }

  /** Locks that stood are given back: nobody else can hold a node the client
      holds, so every node but those that did not answer is free again. */
  lemma LocksReturned(r: Replies, leak: Leak, h0: set<Host>, h1: set<Host>, g0: set<Host>, g1: set<Host>,
                      u: Replies, changed: set<Host>, h2: set<Host>, g2: set<Host>)
    requires g0 <= h0 && LocksStand(r, leak, h0, h1, g0, g1)
    requires Round(UnlockReq, u, changed, r.locked, h1, h2, g1, g2)
    ensures g2 == g0 && g0 <= h2 && h2 - u.unknown <= h0 + leak.lost
    ensures u.another == {} && u.unknown <= r.locked
  {
  }

  /** A round of applies under locks: the calls made, all under a granted lock,
      and how they were filed. */
  ghost predicate AppliedUnderLock(log0: seq<ApplyCall>, log1: seq<ApplyCall>, calls: map<Host, ApplyCall>, rev: Oid,
                                   noop: bool, v0: map<Host, ConfVersion>, v1: map<Host, ConfVersion>,
                                   applied: set<Host>, failed: set<Host>)
  {
    && CallsAre(log0, log1, calls) && CallsTook(calls, rev, noop, v0, v1)
    && (forall h :: h in calls ==> calls[h].underGrant)
    && failed == calls.Keys - Successes(calls)
    && (AllHonest(calls) ==> applied == Successes(calls))
  }

  lemma ApplyingUnderLock(log0: seq<ApplyCall>, log1: seq<ApplyCall>, calls: map<Host, ApplyCall>, rev: Oid, noop: bool,
                          granted: set<Host>, v0: map<Host, ConfVersion>, v1: map<Host, ConfVersion>,
                          applied: set<Host>, failed: set<Host>, applyErrors: set<Host>)
    requires Applying(log0, log1, calls, rev, noop, granted, v0, v1, applied, failed, applyErrors)
    requires calls.Keys <= granted
    ensures AppliedUnderLock(log0, log1, calls, rev, noop, v0, v1, applied, failed)
    ensures applyErrors == Failures(calls)
  {
  }

  /** Only locks were asked for and given back since; who dropped out is what
      the nodes answered when asked for their locks. */
  ghost predicate LocksTold(log0: seq<NodeAnswer>, log1: seq<NodeAnswer>, r: Replies) {
    && log0 <= log1 && (forall i :: |log0| <= i < |log1| ==> log1[i].LockAnswer? && log1[i].kind != StateReq)
    && forall h :: && (Told(log1, |log0|, LockReq, h, LockedByUser) <==> h in r.locked)
                   && (Told(log1, |log0|, LockReq, h, LockUnknown) <==> h in r.unknown)
                   && (Told(log1, |log0|, LockReq, h, LockedByAnother) <==> h in r.another)
  }

  lemma AnswersAreLocks(log0: seq<NodeAnswer>, log1: seq<NodeAnswer>, user: User, kind: LockReqType, comment: string,
                        said: map<Host, LockStatus>)
    requires AnswersAre(log0, log1, user, kind, comment, said) && kind != StateReq
    ensures log0 <= log1 && forall i :: |log0| <= i < |log1| ==> log1[i].LockAnswer? && log1[i].kind != StateReq
  {
  }

  lemma LockUnlockTold(log0: seq<NodeAnswer>, log1: seq<NodeAnswer>, log2: seq<NodeAnswer>, user: User,
                       comment: string, said: map<Host, LockStatus>, undone: map<Host, LockStatus>, r: Replies)
    requires LockTalk(log0, log1, user, comment, said, true) && AnswersAre(log1, log2, user, UnlockReq, "", undone)
    requires r.locked == Where(said, LockedByUser)
    requires r.unknown == Where(said, LockUnknown) && r.another == Where(said, LockedByAnother)
    ensures LocksTold(log0, log2, r)
  {
    hide AnswersAre, Told, ToldUnclean;
    var log, none :| AnswersAre(log0, log, user, LockReq, comment, said)
                     && AnswersAre(log, log1, user, UnlockReq, "", none) && none.Keys == {};
    AnswersAreLocks(log0, log, user, LockReq, comment, said);
    AnswersAreLocks(log, log1, user, UnlockReq, "", none);
    AnswersAreLocks(log1, log2, user, UnlockReq, "", undone);
    forall i | |log0| <= i < |log2| ensures log2[i].LockAnswer? && log2[i].kind != StateReq {
      assert log2[i] == if i < |log| then log[i] else if i < |log1| then log1[i] else log2[i];
    }
    forall h, s: LockStatus ensures Told(log2, |log0|, LockReq, h, s) <==> h in said && said[h] == s {
      ToldAnswers(log0, log, user, LockReq, comment, said, LockReq, h, s, {});
      ToldAnswers(log, log1, user, UnlockReq, "", none, LockReq, h, s, {});
      ToldAnswers(log1, log2, user, UnlockReq, "", undone, LockReq, h, s, {});
      ToldSplit(log0, log, log1, LockReq, h, s, {});
      ToldSplit(log0, log1, log2, LockReq, h, s, {});
    }
  }

  /** What became of the nodes of an apply is what they answered: to the question
      for their state, for their last apply, and for their lock. */
  ghost predicate OutcomeTold(outcome: map<Host, HostOutcome>, log: seq<NodeAnswer>, from: nat, commits: set<Oid>) {
    forall h ::
      && (Told(log, from, StateReq, h, LockUnknown) <==> h in outcome && outcome[h] == StateUnknown)
      && (Told(log, from, StateReq, h, LockedByAnother) <==> h in outcome && outcome[h] == AnotherAtState)
      && (ToldUnclean(log, from, h, commits) <==> h in outcome && outcome[h] == NoLastApply)
      && (Told(log, from, LockReq, h, LockUnknown) <==> h in outcome && outcome[h] == LockFailed)
      && (Told(log, from, LockReq, h, LockedByAnother) <==> h in outcome && outcome[h] == AnotherAtLock)
  }

  lemma OutcomesTold(log0: seq<NodeAnswer>, log1: seq<NodeAnswer>, log2: seq<NodeAnswer>, a: Asked, r: Replies,
                     commits: set<Oid>, outcome: map<Host, HostOutcome>)
    requires StatesTold(log0, log1, a, commits) && LocksTold(log1, log2, r)
    requires Where(outcome, StateUnknown) == a.unknown && Where(outcome, AnotherAtState) == a.another
    requires Where(outcome, NoLastApply) == a.noLastApply
    requires Where(outcome, LockFailed) == r.unknown && Where(outcome, AnotherAtLock) == r.another
    ensures OutcomeTold(outcome, log2, |log0|, commits)
  {
    forall h ensures !ToldUnclean(log2, |log1|, h, commits)
             ensures forall s: LockStatus :: !Told(log2, |log1|, StateReq, h, s) {
    }
    hide Told, ToldUnclean;
    forall k: LockReqType, h, s: LockStatus
      ensures Told(log2, |log0|, k, h, s) <==> Told(log1, |log0|, k, h, s) || Told(log2, |log1|, k, h, s)
      ensures ToldUnclean(log2, |log0|, h, commits) <==> ToldUnclean(log1, |log0|, h, commits)
    {
      ToldSplit(log0, log1, log2, k, h, s, commits);
    }
    forall h, o ensures h in Where(outcome, o) <==> h in outcome && outcome[h] == o {
    }
  }

  /** Locks the active nodes, applies, unlocks. An unlock that is not answered
      overwrites the error of its node: `applyErrors` are the other failures. */
  method ApplyLocked(ns: NodeSet, fleet: Fleet, rev: Oid, noop: bool, lockMsg: string)
    returns (ok: bool, applied: set<Host>, failed: set<Host>, applyErrors: set<Host>, ghost calls: map<Host, ApplyCall>,
             ghost r: Replies, ghost unlockFailed: set<Host>)
    requires fleet.granted <= fleet.Held()
    modifies ns`active, ns`errored, ns`locked, ns`lockedByAnother
    modifies fleet`locks, fleet`disturbed, fleet`granted, fleet`answers, fleet`versions, fleet`log
    ensures fleet.granted == old(fleet.granted) && fleet.granted <= fleet.Held()
    ensures fleet.HeldOtherwise() == old(fleet.HeldOtherwise())
    ensures AppliedUnderLock(old(fleet.log), fleet.log, calls, rev, noop, old(fleet.versions), fleet.versions,
                             applied, failed)
    ensures applyErrors == Failures(calls) - unlockFailed
    ensures !ok ==> calls == map[] && unlockFailed == {} && ns.ThresholdExceeded()
    ensures ok ==> LocksTold(old(fleet.answers), fleet.answers, r)
    ensures ok ==> r.Deals(old(ns.active)) && r.unlocked == {} && calls.Keys == r.locked && unlockFailed <= r.locked
                   && ns.errored == old(ns.errored) + r.unknown + unlockFailed && ns.lockedByAnother == r.another
  {
    hide *;
    applied, failed, applyErrors, calls, unlockFailed := {}, {}, {}, map[], {};
    ghost var log0, v0, h0, g0, a0 := fleet.log, fleet.versions, fleet.Held(), fleet.granted, fleet.answers;
    ghost var leak, told;
    ok, r, leak, told := LockNodeSet(ns, fleet, lockMsg);
    if !ok {
      NoCalls(log0, rev, noop, v0);
      RolledBackGrants(r, leak, h0, fleet.Held(), g0, fleet.granted);
      return;
    }
    ghost var h1, g1, a1 := fleet.Held(), fleet.granted, fleet.answers;
    StandGrants(r, leak, h0, h1, g0, g1);
    applied, failed, applyErrors, calls := ApplyAll(fleet, ns.active, rev, noop);
    ApplyingUnderLock(log0, fleet.log, calls, rev, noop, g1, v0, fleet.versions, applied, failed, applyErrors);
    var u;
    ghost var changed, said;
    u, changed, said := UnlockNodeSet(ns, fleet);
    LockUnlockTold(a0, a1, fleet.answers, fleet.client, lockMsg, told, said, r);
    LocksReturned(r, leak, h0, h1, g0, g1, u, changed, fleet.Held(), fleet.granted);
    applyErrors := applyErrors - u.unknown;
    unlockFailed := u.unknown;
  }

  lemma NoCalls(log: seq<ApplyCall>, rev: Oid, noop: bool, v: map<Host, ConfVersion>)
    ensures CallsAre(log, log, map[]) && CallsTook(map[], rev, noop, v, v)
    ensures AppliedUnderLock(log, log, map[], rev, noop, v, v, {}, {})
    ensures Failures(map[]) == {}
  {
  }

  lemma FailuresAre(calls: map<Host, ApplyCall>)
    ensures forall h :: h in Failures(calls) <==>
                        h in calls && calls[h].reply.Done? && calls[h].reply.report.failed
  {
  }

  lemma NoCallsDue(repo: Repo, rev: Oid)
    ensures CallsDue(map[], repo, rev)
  {
  }

  lemma CallsWereDue(log0: seq<ApplyCall>, log1: seq<ApplyCall>, calls: map<Host, ApplyCall>, repo: Repo, rev: Oid,
                     noop: bool, v0: map<Host, ConfVersion>, v1: map<Host, ConfVersion>, applied: set<Host>,
                     failed: set<Host>, lastApply: map<Host, Oid>, active: set<Host>, beyond: set<Host>, due: set<Host>)
    requires AppliedUnderLock(log0, log1, calls, rev, noop, v0, v1, applied, failed)
    requires calls.Keys <= due && Dealt(active, beyond, due, {})
    requires KnowsLastApplies(lastApply, v0, repo.parents.Keys, active)
    requires forall h :: h in due ==> h in lastApply && lastApply[h] in repo.parents
                                      && rev !in History(repo, lastApply[h])
    ensures CallsAre(log0, log1, calls) && CallsTook(calls, rev, noop, v0, v1) && CallsDue(calls, repo, rev)
    ensures failed == calls.Keys - Successes(calls) && (AllHonest(calls) ==> applied == Successes(calls))
    ensures beyond <= active && due == active - beyond
  {
  }

  /** What became of the nodes that were locked is what Puppet answered; a node
      beyond the revision ran a commit with the revision in its history. */
  ghost predicate OutcomeDone(outcome: map<Host, HostOutcome>, calls: map<Host, ApplyCall>, repo: Repo, rev: Oid,
                              v0: map<Host, ConfVersion>)
  {
    && (forall h :: h in calls ==> h in outcome)
    && forall h :: h in outcome ==>
                     && (outcome[h] == Applied <==>
                         h in calls && calls[h].reply.Done? && !calls[h].reply.report.failed)
                     && (outcome[h] == ApplyFailed <==>
                         h in calls && (calls[h].reply.ApplyError? || calls[h].reply.report.failed))
                     && (outcome[h] == BeyondRev ==>
                           exists c :: c in repo.parents && rev in History(repo, c)
                                       && VersionAt(v0, h) == CleanVersion(c))
  }

  lemma OutcomesDone(outcome: map<Host, HostOutcome>, calls: map<Host, ApplyCall>, repo: Repo, rev: Oid,
                     v0: map<Host, ConfVersion>, beyond: set<Host>, lastApply: map<Host, Oid>, active: set<Host>)
    requires Where(outcome, Applied) == Successes(calls) && Where(outcome, BeyondRev) == beyond
    requires Where(outcome, ApplyFailed) == calls.Keys - Successes(calls)
    requires KnowsLastApplies(lastApply, v0, repo.parents.Keys, active) && beyond <= active
    requires forall h :: h in beyond ==> h in lastApply && lastApply[h] in repo.parents
                                         && rev in History(repo, lastApply[h])
    ensures OutcomeDone(outcome, calls, repo, rev, v0)
  {
    hide History;
    forall h, o ensures h in Where(outcome, o) <==> h in outcome && outcome[h] == o {
    }
    forall h | h in calls ensures h in Successes(calls) || h in calls.Keys - Successes(calls) {
    }
  }

  lemma AccountsHold(hosts: set<Host>, errored0: set<Host>, a: Asked, active: set<Host>, errored: set<Host>,
                     lockedByAnother: set<Host>, beyond: set<Host>, r: Replies,
                     calls: map<Host, ApplyCall>, applied: set<Host>, failed: set<Host>, unlockFailed: set<Host>)
    returns (outcome: map<Host, HostOutcome>)
    requires AskedOutcome(a, hosts, errored0, active, errored, lockedByAnother)
    requires beyond <= active && r.Deals(active - beyond) && r.unlocked == {}
    requires calls.Keys == r.locked && unlockFailed <= r.locked && failed == calls.Keys - Successes(calls)
    requires AllHonest(calls) ==> applied == Successes(calls)
    ensures outcome.Keys == hosts
    ensures Accounts(outcome, calls, errored0, applied, beyond, unlockFailed, applied + beyond,
                     errored + r.unknown + unlockFailed + failed, r.another)
    ensures Where(outcome, StateUnknown) == a.unknown && Where(outcome, AnotherAtState) == a.another
    ensures Where(outcome, NoLastApply) == a.noLastApply
    ensures Where(outcome, LockFailed) == r.unknown && Where(outcome, AnotherAtLock) == r.another
    ensures Where(outcome, Applied) == Successes(calls) && Where(outcome, BeyondRev) == beyond
    ensures Where(outcome, ApplyFailed) == calls.Keys - Successes(calls)
  {
    outcome := OutcomeOf(hosts, a, beyond, r, Successes(calls));
    assert Successes(calls) <= calls.Keys;
    OutcomeSets(hosts, a, beyond, r, Successes(calls));
  }

  lemma LastAppliesKnown(lastApply: map<Host, Oid>, versions: map<Host, ConfVersion>, commits: set<Oid>,
                         hosts: set<Host>)
    requires KnowsLastApplies(lastApply, versions, commits, hosts)
    ensures forall h :: h in hosts ==> h in lastApply && lastApply[h] in commits
                                       && VersionAt(versions, h) == CleanVersion(lastApply[h])
  {
  }

  lemma CallsInside(ok: bool, r: Replies, calls: map<Host, ApplyCall>, hosts: set<Host>)
    requires if ok then r.Deals(hosts) && calls.Keys == r.locked else calls == map[]
    ensures calls.Keys <= hosts
  {
  }

  method ApplyNodeSet(ns: NodeSet, fleet: Fleet, repo: Repo, rev: Oid, noop: bool, lockMsg: string)
    returns (ok: bool, applied: set<Host>, beyondRev: set<Host>, applyErrors: set<Host>,
             ghost outcome: map<Host, HostOutcome>, ghost calls: map<Host, ApplyCall>, ghost unlockFailed: set<Host>)
    requires rev in repo.parents && fleet.granted <= fleet.Held()
    modifies ns`active, ns`errored, ns`locked, ns`lockedByAnother, ns`lastApply
    modifies fleet`locks, fleet`disturbed, fleet`granted, fleet`answers, fleet`versions, fleet`log
    ensures fleet.granted == old(fleet.granted) && fleet.granted <= fleet.Held()
    ensures fleet.HeldOtherwise() == old(fleet.HeldOtherwise())
    ensures applyErrors == Failures(calls) - unlockFailed && unlockFailed <= calls.Keys
    ensures forall h :: h in Failures(calls) <==>
                        h in calls && calls[h].reply.Done? && calls[h].reply.report.failed
    ensures !ok ==> calls == map[] && ns.ThresholdExceeded()
    ensures CallsAre(old(fleet.log), fleet.log, calls) && CallsDue(calls, repo, rev)
    ensures CallsTook(calls, rev, noop, old(fleet.versions), fleet.versions)
    ensures ok ==> outcome.Keys == old(ns.active)
    ensures ok ==> Accounts(outcome, calls, old(ns.errored), applied, beyondRev, unlockFailed,
                            ns.active, ns.errored, ns.lockedByAnother)
    ensures ok ==> OutcomeTold(outcome, fleet.answers, |old(fleet.answers)|, repo.parents.Keys)
    ensures ok ==> OutcomeDone(outcome, calls, repo, rev, old(fleet.versions))
  {
    hide *;
    ghost var answers0 := fleet.answers;
    applied, beyondRev, applyErrors, outcome, calls, unlockFailed := {}, {}, {}, map[], map[], {};
    ghost var active0, errored0, log0, v0 := ns.active, ns.errored, fleet.log, fleet.versions;
    var known;
    ghost var a, said, told;
    known, a, said, told := LastApplyNodeSet(ns, fleet, repo.parents.Keys);
    if !known {
      NoCalls(fleet.log, rev, noop, v0);
      FailuresAre(map[]);
      NoCallsDue(repo, rev);
      return false, {}, {}, {}, map[], map[], {};
    }
    ghost var active, errored, another, answers1 := ns.active, ns.errored, ns.lockedByAnother, fleet.answers;
    LastAppliesKnown(ns.lastApply, v0, repo.parents.Keys, active);
    var beyond, due := BeyondRevNodes(repo, ns.lastApply, ns.active, rev);
    ns.active := due;
    var failed;
    ghost var r;
    ok, applied, failed, applyErrors, calls, r, unlockFailed := ApplyLocked(ns, fleet, rev, noop, lockMsg);
    assert calls.Keys <= due by { CallsInside(ok, r, calls, due); }
    FailuresAre(calls);
    CallsWereDue(log0, fleet.log, calls, repo, rev, noop, v0, fleet.versions, applied, failed,
                 ns.lastApply, active, beyond, due);
    if ok {
      beyondRev := beyond;
      ns.active := applied + beyondRev;
      ns.errored := ns.errored + failed;
      outcome := AccountsHold(active0, errored0, a, active, errored, another, beyond, r, calls, applied, failed,
                              unlockFailed);
      OutcomesDone(outcome, calls, repo, rev, v0, beyond, ns.lastApply, active);
      OutcomesTold(answers0, answers1, fleet.answers, a, r, repo.parents.Keys, outcome);
    }
  }
}
