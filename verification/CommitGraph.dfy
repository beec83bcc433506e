/** The commit graph the daemons query through libgit2: an acyclic graph of
    commits, the history of a commit, and the revision ranges built from it. */
module CommitGraph {
  import opened Wrappers

  type Oid = nat
  const ZERO_OID: Oid := 0

  /** `generation` is git's generation number: it witnesses that the graph has no cycle. */
  datatype Graph = Graph(parents: map<Oid, seq<Oid>>, generation: map<Oid, nat>) {
    ghost predicate Acyclic() {
      && parents.Keys == generation.Keys
      && (forall c, p :: c in parents && p in parents[c] ==>
                           p in parents && generation[p] < generation[c])
    }
  }

  type Repo = g: Graph | g.Acyclic() witness Graph(map[], map[])

  /** Some chain of parent links leads from the commit to the ancestor. */
  predicate Reaches(repo: Repo, c: Oid, ancestor: Oid)
    requires c in repo.parents
    decreases repo.generation[c]
  {
    ancestor == c || exists p :: p in repo.parents[c] && Reaches(repo, p, ancestor)
  }

  /** The commit and everything reachable from it through parent links. */
  function History(repo: Repo, c: Oid): (h: set<Oid>)
    requires c in repo.parents
    ensures c in h
  {
    set a | a in repo.parents && Reaches(repo, c, a)
  }

  /** libgit2's graph query: a commit is not a descendant of itself. */
  predicate DescendantOf(repo: Repo, commit: Oid, ancestor: Oid)
    requires commit in repo.parents
  {
    ancestor in History(repo, commit) && ancestor != commit
  }

  /** Parent links lead from the commit, one after the other, to the ancestor. */
  ghost predicate Linked(repo: Repo, c: Oid, ancestor: Oid) {
    exists path: seq<Oid> :: |path| > 0 && IsChain(repo, path) && path[0] == c && path[|path|-1] == ancestor
  }

  ghost predicate IsParent(repo: Repo, p: Oid, c: Oid) {
    c in repo.parents && p in repo.parents[c]
  }

  ghost predicate IsChain(repo: Repo, path: seq<Oid>) {
    forall i, j :: 0 <= i < j < |path| && j <= i + 1 ==> IsParent(repo, path[j], path[i])
  }

  lemma ChainTail(repo: Repo, path: seq<Oid>)
    requires IsChain(repo, path) && |path| > 1
    ensures path[0] in repo.parents && path[1] in repo.parents[path[0]] && IsChain(repo, path[1..])
  {
    var rest := path[1..];
    forall i, j | 0 <= i < j < |rest| && j <= i + 1 ensures IsParent(repo, rest[j], rest[i]) {
      assert rest[i] == path[i+1] && rest[j] == path[j+1];
    }
    assert IsParent(repo, path[1], path[0]);
  }

  lemma ChainCons(repo: Repo, c: Oid, rest: seq<Oid>)
    requires c in repo.parents && |rest| > 0 && IsChain(repo, rest) && rest[0] in repo.parents[c]
    ensures IsChain(repo, [c] + rest)
  {
    var path := [c] + rest;
    forall i, j | 0 <= i < j < |path| && j <= i + 1 ensures IsParent(repo, path[j], path[i]) {
      assert path[j] == rest[j-1];
      assert i > 0 ==> path[i] == rest[i-1];
    }
  }

  lemma {:induction false} ChainReaches(repo: Repo, path: seq<Oid>)
    requires |path| > 0 && IsChain(repo, path) && path[0] in repo.parents
    ensures Reaches(repo, path[0], path[|path|-1])
    ensures path[|path|-1] in repo.parents
    decreases |path|
  {
    if |path| > 1 {
      ChainTail(repo, path);
      hide IsChain;
      ChainReaches(repo, path[1..]);
    }
  }

  lemma {:induction false} ReachesByChain(repo: Repo, c: Oid, a: Oid) returns (path: seq<Oid>)
    requires c in repo.parents && Reaches(repo, c, a)
    ensures |path| > 0 && path[0] == c && path[|path|-1] == a
    ensures IsChain(repo, path)
    decreases repo.generation[c]
  {
    hide IsChain;
    if a == c {
      path := [c];
      ChainOne(repo, c);
    } else {
      var p :| p in repo.parents[c] && Reaches(repo, p, a);
      var rest := ReachesByChain(repo, p, a);
      ChainCons(repo, c, rest);
      path := [c] + rest;
    }
  }

  lemma ChainOne(repo: Repo, c: Oid)
    ensures IsChain(repo, [c])
  {
  }

  /** The history of a commit is what a sequence of commits leads to that starts
      with it, each commit being a parent of the one before. */
  lemma HistoryByParents(repo: Repo, c: Oid, a: Oid)
    requires c in repo.parents
    ensures a in History(repo, c)
        <==> exists path: seq<Oid> ::
               && |path| > 0 && path[0] == c && path[|path|-1] == a
               && forall i, j :: 0 <= i < j < |path| && j <= i + 1 ==> IsParent(repo, path[j], path[i])
    ensures forall x, p :: IsParent(repo, p, x) <==> x in repo.parents && p in repo.parents[x]
    ensures a in History(repo, c) <==> Linked(repo, c, a)
  {
    if a in History(repo, c) {
      var path := ReachesByChain(repo, c, a);
      assert path[0] == c && path[|path|-1] == a && IsChain(repo, path);
    } else {
      forall path: seq<Oid> | |path| > 0 && path[0] == c && path[|path|-1] == a ensures !IsChain(repo, path) {
        if IsChain(repo, path) { ChainReaches(repo, path); }
      }
    }
  }

  lemma {:induction false} HistoryTransitive(repo: Repo, a: Oid, b: Oid, c: Oid)
    requires c in repo.parents && b in History(repo, c) && a in History(repo, b)
    ensures a in History(repo, c)
    decreases repo.generation[c]
  {
    if b != c {
      var p :| p in repo.parents[c] && Reaches(repo, p, b);
      HistoryTransitive(repo, a, b, p);
    }
  }

  /** Parent links lead to smaller generations only. */
  lemma {:induction false} HistoryGeneration(repo: Repo, a: Oid, c: Oid)
    requires c in repo.parents && a in History(repo, c)
    ensures a != c ==> repo.generation[a] < repo.generation[c]
    decreases repo.generation[c]
  {
    if a != c {
      var p :| p in repo.parents[c] && Reaches(repo, p, a);
      HistoryGeneration(repo, a, p);
    }
  }

  /** Two commits in each other's history are the same commit. */
  lemma HistoryAntisymmetric(repo: Repo, a: Oid, b: Oid)
    requires a in repo.parents && b in repo.parents
    requires a in History(repo, b) && b in History(repo, a)
    ensures a == b
  {
    HistoryGeneration(repo, a, b);
    HistoryGeneration(repo, b, a);
  }

  lemma ParentHistory(repo: Repo, p: Oid, c: Oid)
    requires c in repo.parents && p in repo.parents[c]
    ensures p in History(repo, c) && History(repo, p) <= History(repo, c)
  {
    forall a | a in History(repo, p) ensures a in History(repo, c) {
      assert Reaches(repo, p, a);
    }
    assert Reaches(repo, p, p);
  }

  /** A commit is already applied exactly when it lies in the history of the applied one. */
  predicate CommitAlreadyApplied(repo: Repo, appliedCommit: Oid, potentialCommit: Oid)
    requires appliedCommit in repo.parents
    ensures CommitAlreadyApplied(repo, appliedCommit, potentialCommit)
        <==> potentialCommit in History(repo, appliedCommit)
  {
    if appliedCommit == potentialCommit then true
    else DescendantOf(repo, appliedCommit, potentialCommit)
  }

  /** In the lineage of a node: comparable, either way, with what the node last applied. */
  predicate CommitInNodeLineage(repo: Repo, commit: Oid, lastApply: Oid)
    requires commit in repo.parents && lastApply != ZERO_OID
    ensures CommitInNodeLineage(repo, commit, lastApply)
        <==> lastApply in repo.parents
             && (commit in History(repo, lastApply) || lastApply in History(repo, commit))
  {
    if lastApply !in repo.parents then false
    else if lastApply == commit then true
    else if DescendantOf(repo, lastApply, commit) then true
    else DescendantOf(repo, commit, lastApply)
  }

  /** Applied means linked to by parents from the applied commit; in the lineage,
      linked one way or the other. */
  lemma AppliedByParents(repo: Repo, applied: Oid, commit: Oid)
    requires applied in repo.parents && commit in repo.parents && applied != ZERO_OID
    ensures CommitAlreadyApplied(repo, applied, commit) <==> Linked(repo, applied, commit)
    ensures CommitInNodeLineage(repo, commit, applied)
        <==> Linked(repo, applied, commit) || Linked(repo, commit, applied)
  {
    HistoryByParents(repo, applied, commit);
    HistoryByParents(repo, commit, applied);
  }

  /** begin..end: what is reachable from the end and not from the beginning. */
  function Range(repo: Repo, begin: Oid, end: Oid): set<Oid>
    requires begin in repo.parents && end in repo.parents
  {
    History(repo, end) - History(repo, begin)
  }

  /** What libgit2's walker yields for begin..end with the reversed topological
      sorting: every commit of the range once, a commit never before an ancestor of it. */
  ghost predicate IsWalk(repo: Repo, begin: Oid, end: Oid, walk: seq<Oid>)
    requires begin in repo.parents && end in repo.parents
  {
    && (forall c :: c in walk <==> c in Range(repo, begin, end))
    && AncestorsFirst(repo, walk)
  }

  ghost predicate AncestorsFirst(repo: Repo, walk: seq<Oid>) {
    forall i, j :: 0 <= i < j < |walk| ==>
                     walk[i] != walk[j] && (walk[i] in repo.parents ==> walk[j] !in History(repo, walk[i]))
  }

  lemma {:induction false} Oldest(repo: Repo, s: set<Oid>) returns (c: Oid)
    requires s != {} && s <= repo.parents.Keys
    ensures c in s && forall d :: d in s ==> repo.generation[c] <= repo.generation[d]
    decreases |s|
  {
    c :| c in s;
    if s != {c} {
      var d := Oldest(repo, s - {c});
      if repo.generation[d] < repo.generation[c] { c := d; }
    }
  }

  /** Stands for the walker of libgit2: some order of the commits, ancestors first. */
  method RevWalk(repo: Repo, range: set<Oid>) returns (walk: seq<Oid>)
    requires range <= repo.parents.Keys
    ensures forall c :: c in walk <==> c in range
    ensures AncestorsFirst(repo, walk)
  {
    walk := [];
    var rest := range;
    while rest != {}
      invariant rest <= range
      invariant forall c :: c in walk <==> c in range - rest
      invariant AncestorsFirst(repo, walk)
      invariant forall c, d :: c in walk && d in rest ==> repo.generation[c] <= repo.generation[d]
      decreases |rest|
    {
      ghost var oldest := Oldest(repo, rest);
      var c :| c in rest && forall d :: d in rest ==> repo.generation[c] <= repo.generation[d];
      WalkOn(repo, walk, c);
      walk := walk + [c];
      rest := rest - {c};
    }
  }

  /** A commit no younger than those already walked comes next. */
  lemma WalkOn(repo: Repo, walk: seq<Oid>, c: Oid)
    requires AncestorsFirst(repo, walk) && c in repo.parents && c !in walk
    requires forall d :: d in walk ==> d in repo.parents && repo.generation[d] <= repo.generation[c]
    ensures AncestorsFirst(repo, walk + [c])
  {
    forall i | 0 <= i < |walk| ensures walk[i] != c && c !in History(repo, walk[i]) {
      assert walk[i] in walk;
      if c in History(repo, walk[i]) { HistoryGeneration(repo, c, walk[i]); }
    }
  }

  /** The commits of a revision range, ancestors first, with their parents. */
  method CommitLogIdList(repo: Repo, begin: Oid, end: Oid)
    returns (commitLogIds: seq<Oid>, commits: map<Oid, seq<Oid>>)
    requires begin in repo.parents && end in repo.parents
    ensures IsWalk(repo, begin, end, commitLogIds)
    ensures forall c :: c in commitLogIds <==> Linked(repo, end, c) && !Linked(repo, begin, c)
    ensures forall i, j :: 0 <= i < j < |commitLogIds| ==>
                             commitLogIds[i] != commitLogIds[j] && !Linked(repo, commitLogIds[i], commitLogIds[j])
    ensures commits.Keys == Range(repo, begin, end)
    ensures forall c :: c in commits ==> commits[c] == repo.parents[c]
  {
    var walk := RevWalk(repo, Range(repo, begin, end));
    commitLogIds, commits := [], map[];
    for i := 0 to |walk|
      invariant commitLogIds == walk[..i]
      invariant commits.Keys == set c | c in walk[..i]
      invariant forall c :: c in commits ==> c in repo.parents && commits[c] == repo.parents[c]
    {
      assert walk[i] in Range(repo, begin, end);
      commitLogIds := commitLogIds + [walk[i]];
      commits := commits[walk[i] := repo.parents[walk[i]]];
    }
    assert walk[..|walk|] == walk;
    WalkByParents(repo, begin, end, walk);
  }

  lemma WalkByParents(repo: Repo, begin: Oid, end: Oid, walk: seq<Oid>)
    requires begin in repo.parents && end in repo.parents && IsWalk(repo, begin, end, walk)
    ensures forall c :: c in walk <==> Linked(repo, end, c) && !Linked(repo, begin, c)
    ensures forall i, j :: 0 <= i < j < |walk| ==> walk[i] != walk[j] && !Linked(repo, walk[i], walk[j])
  {
    hide Linked;
    forall c ensures c in walk <==> Linked(repo, end, c) && !Linked(repo, begin, c) {
      HistoryByParents(repo, end, c);
      HistoryByParents(repo, begin, c);
    }
    forall i, j | 0 <= i < j < |walk| ensures walk[i] != walk[j] && !Linked(repo, walk[i], walk[j]) {
      assert walk[i] in Range(repo, begin, end);
      HistoryByParents(repo, walk[i], walk[j]);
    }
  }
}
