# Heckler: a Dafny model of the release pipeline

Heckler noops every commit on every node, subtracts the noops of the parents so
that each commit shows its own changes, groups those changes across nodes,
collects the approval of their owners, and applies release tags in stages under
per-node locks. This project models that pipeline and proves what it is for.

Check it with `dafny verify dfyconfig.toml`.

| file | subject |
|---|---|
| `Wrappers.dfy` | optional values, replies that may fail, distinct lists |
| `CommitGraph.dfy` | the commit DAG: histories, lineages, revision ranges |
| `SemVerTags.dfy` | tag prefixes, precedence, the next tags, automatic tags |
| `ShallowEquality.dfy` | the reflective comparison under subtraction and grouping |
| `ComparedFields.dfy` | that comparison on events, logs and deltas, field by field |
| `NoopReports.dfy` | reports, and the subtraction of prior noops |
| `DeltaCoverage.dfy` | which changes the deltas of a history cover |
| `Grouping.dfy` | grouping the deltas of all nodes while deleting them, and what the groups print |
| `LockFile.dfy` | the lock file of one node, request by request and over histories |
| `LockSystem.dfy` | the noop, clean and apply loops over all lock files, interleaved |
| `Fleet.dfy` | nodes as remote services: lost replies, other users' requests, honest Puppet |
| `NodeSets.dfy` | node sets: locking with rollback, last applies, applying a revision |
| `NoopRuns.dfy` | nooping one commit on a node set, with the cache on disk |
| `GroupReports.dfy` | the grouped report of a commit, from noops to groups |
| `ReportRuns.dfy` | the noop loop: reports on disk, and what they cover over many runs |
| `DirtyClean.dfy` | cleaning dirty nodes, and the memo of what they were nooped with |
| `Approval.dfy` | owners, approvers, and who is still needed |
| `Release.dfy` | commit and tag approval, the common tag, release safety |
| `ApplyRun.dfy` | one run of the apply loop, from the common tag to the failures it reports |
| `Pipeline.dfy` | from noop to release: exactly which released changes were reported and passed |

## How it is modelled

- git is a finite acyclic graph of commits (`CommitGraph.Repo`) with a map from
  tags to commits. `describe`, the semver parser and the walker of libgit2 are
  parameters or arbitrary choices that keep the library's promises.
- A map from host to node is a set of hosts with tables beside it. Hosts are
  dialled from a list that may fail to load.
- Remote calls are methods of `Fleets.Fleet` with arbitrary results. A lock
  request may get lost before or after it took effect, and users other than
  hecklerd's own two, root and heckler, may send any unforced requests between
  any two calls. What the nodes answer is
  arbitrary too; theorems that need Puppet to answer truthfully say so with
  `Honest`, or with `Named` when naming the node and the commit is enough.
  The fleet keeps ghost logs of the calls and of all answers (`log`, `answers`):
  contracts say who dropped out, and why, in terms of these.
- One lock request is one atomic step of rizzod. Fatal exits of hecklerd are
  results of their own.
- Loops over Go maps visit their entries in an arbitrary order.
- Ghost results (`outcome`, `calls`, `leak`, `choice`, `runs`, `after`) record what
  became of each node and which calls were made, so that contracts can speak of
  it. `ReportRuns.ReportStore` keeps a ghost list of all report runs, and its
  `Valid` says that every report on disk was made by one of them.

## What turned out false, and when it does hold

- Rolling back locks restores the lock files exactly when no answer to a lock
  request was lost after it took effect and no unlock failed (`RolledBack`,
  `LockNodeSet`); otherwise precisely the leaked nodes stay locked.
- A running PuppetApply is on a node locked by root unless the run contains, for
  that node, an abandoned apply (the client gives up after ten minutes, rizzod
  does not), a lock granted although linking the lock file failed, or a request
  from outside that takes root's lock file away (`LockDiscipline`). That last
  cause is exactly an unlock by force or in root's name, or a forced lock by
  somebody else, carried out without a fault (`RobsExactly`); each cause alone
  suffices (`EveryCauseBreaks`).
- A lock request is granted to one user at a time unless linking fails: then
  two users are told that they hold the lock (`FailedLinkGrantsTwice`). A grant
  means that the lock file was created exactly when linking did not fail
  (`GrantExact`).
- A commit whose noop shows evaluation errors and no change of a resource needs
  consent, and passes as approved by codeowners although nobody approved, as soon
  as one author is known (`EvalErrorsPass`). A commit that needed consent and
  passed was approved by an admin or an owner of one of its resources, not an
  author, exactly when it changes some resource or an admin approved
  (`ClearedBySomebody`).
- What a release brings to a node was all found approved exactly when the node
  has the common tag (`ReleaseSafetyExact`, `ApprovedExactly`). Nodes that were
  unreachable or locked when the common tag was computed need not have it.
- A report need not show every change of the nodes it lists. A resource prints the
  delta of one of its nodes, and nodes are grouped without regard to events and
  logs: two nodes that differ in their event only share a resource, and one of the
  events is printed nowhere (`OneEventLost`); of several diffs only the last is
  kept (`OneDiffLost`). Every change is shown, whichever node each resource was
  made from, exactly when deltas that are grouped together print the same
  (`ShownExactly`).
- A change can be released without anybody having seen it. A commit outside the
  lineage of some node gets an empty report and needs no consent; its milestone
  alone lets it pass (`OutsideCleared`, `SideBranchUnreviewed`). A node dropped
  from a run is listed by no resource of its report (`DroppedUnlisted`). A change
  that is new with a released commit was reviewed exactly when the commit is in
  the lineage of all nodes and the report on it covers the node
  (`NewChangeReviewed`; `CoveredExactly` says so of deltas, whatever the noops
  are). All that is pending below a commit outside the lineage of a node is on
  that node already (`PendingBelow`).
- An admin may clear a commit alone of which he is the author
  (`AuthorAdminPasses`). A cleared commit stays cleared without its authors'
  approvals exactly when the codeowners approved it or some approving admin is no
  author (`ClearedWithoutAuthors`).
- All logs are covered by deltas exactly when every new log names a listed
  resource (`LogsCovered`).
- Once all listed owners have answered, a noop is approved exactly when an admin
  approved, or authors are known and every resource had somebody to ask
  (`ListedSuffice`).
- Stripping and adding the environment prefix restores a tag exactly when the
  tag carried it (`PrefixRoundTrip`). The automatic tag exceeds all others
  exactly when the major version does not wrap around in 64 bits
  (`AutoTagExceedsAll`).
- The shallow comparison is an equivalence on structs of one type, and is not
  transitive across types (`NotTransitiveAcrossShapes`).
- A commit is not nooped twice on a dirty node as long as the node is found dirty
  at the same commit in every round; a node that is missing from one round is
  forgotten (`Remembered`, `ForgottenWhenAway`).

Where comments of the code and the code differ, the model follows the code:
`groupResources` zeroes the line of the deltas it seems to copy, so no group has
a line; the exclusion of authors does not bind admins; a lock request by the holder itself is answered like that of a
stranger; `repoTags` collects annotated tags but returns all of them; evaluation
errors, which the comment at `cmd/hecklerd/main.go:3038-3039` wants kept from
automatic approval, are let through by the loop over no resources.

## Model

| member | source | states |
|---|---|---|
| CommitGraph.HistoryAntisymmetric | cmd/hecklerd/main.go:960-969 | ancestry is an order: two commits in each other's history are one commit |
| CommitGraph.HistoryByParents | cmd/hecklerd/main.go:960-969 | a commit is in the history of another one if and only if a sequence of commits leads from that one to it, each a parent of the one before |
| CommitGraph.CommitAlreadyApplied | cmd/hecklerd/main.go:960-969 | holds exactly for the commits in the history of the applied one, itself included |
| CommitGraph.CommitInNodeLineage | cmd/hecklerd/main.go:4977-5006 | holds exactly when the commit and the node's last apply are comparable in the repository |
| CommitGraph.AppliedByParents | cmd/hecklerd/main.go:960-969 | applied means linked by such a sequence from the applied commit; in the lineage, linked one way or the other |
| CommitGraph.CommitLogIdList | cmd/hecklerd/main.go:488-532 | yields, each once and with its parents, exactly the commits linked by parents from the end and not from the beginning; none is linked from a commit listed before it |
| SemVerTags.PrefixRoundTrip | cmd/hecklerd/main.go:5055-5069 | parsing a tag and printing it back restores it if and only if it carried the environment prefix |
| SemVerTags.PrefixStripped | cmd/hecklerd/main.go:5055-5069 | what is parsed is what follows prefix and slash, or the whole tag without them |
| SemVerTags.SortedSemVers | cmd/hecklerd/main.go:5071-5083 | fails exactly when a tag does not parse; otherwise the result is a sorted permutation of the tags' versions |
| SemVerTags.Precedence | cmd/hecklerd/main.go:5071-5083 | versions are ordered by major, minor, patch and pre-release in this order: a total preorder whose ties agree in all four |
| SemVerTags.NextSemVerTags | cmd/hecklerd/main.go:5104-5126 | fails exactly when a tag does not parse or the prior tag is missing; otherwise lists what follows the last occurrence of the prior tag in some sorting |
| SemVerTags.NextTagsComplete | cmd/hecklerd/main.go:5104-5126 | every tag of higher precedence than the prior tag is listed, in its original spelling, however ties were sorted |
| SemVerTags.NextTagsSound | cmd/hecklerd/main.go:5104-5126 | only existing tags other than the prior one and not below it are listed; a listed tag is strictly above it exactly when it does not tie with it |
| SemVerTags.NextTagsIncrease | cmd/hecklerd/main.go:5104-5126 | tags of distinct precedence are listed in strictly increasing order |
| SemVerTags.AutoTagExceedsAll | cmd/hecklerd/main.go:3833-3857 | the automatic tag, the next major version with nothing after it, exceeds every version if and only if the latest major version is not the largest of 64 bits |
| SemVerTags.AutoTagIsOnlyNext | cmd/hecklerd/main.go:3833-3857 | once added, the automatic tag is the one and only next tag after the old latest tag |
| ShallowEquality.ShallowEqual | internal/pbutil/shallow_equal.go:109-146 | the two-phase loops decide the relational specification on structs; other values are compared, or refused, by comparability |
| ShallowEquality.StructsReflexive | internal/pbutil/shallow_equal.go:109-146 | every struct equals itself when field equality is reflexive |
| ShallowEquality.StructsSymmetric | internal/pbutil/shallow_equal.go:109-146 | the comparison is symmetric although the name phase looks one way only |
| ShallowEquality.NameEqualSymmetric | internal/pbutil/shallow_equal.go:131-139 | the one-way name phase is symmetric by a cardinality argument over distinct names |
| ShallowEquality.SameShapePointwise | internal/pbutil/shallow_equal.go:109-146 | on one struct type the comparison is pointwise equality of the comparable fields |
| ShallowEquality.SameShapeTransitive | internal/pbutil/shallow_equal.go:109-146 | on one struct type it is transitive |
| ShallowEquality.NotTransitiveAcrossShapes | internal/pbutil/shallow_equal.go:109-146 | across types it is not: three structs with equal neighbours and unequal ends |
| ComparedFields.DeltasCompared | cmd/hecklerd/main.go:1139-1160 | two deltas with their lines zeroed compare equal if and only if title, type, define type and file agree |
| ComparedFields.EventsCompared | cmd/hecklerd/main.go:854-875 | two events compare equal if and only if they are the same value and their messages have the same cached size |
| ComparedFields.LogsCompared | cmd/hecklerd/main.go:877-896 | the same for logs |
| NoopReports.PriorEvent | cmd/hecklerd/main.go:854-875 | finds an event exactly when some prior has it under the same title |
| NoopReports.PriorLog | cmd/hecklerd/main.go:877-896 | finds a log exactly when some prior has it |
| NoopReports.SubtractNoops | cmd/hecklerd/main.go:911-955 | fails exactly on an unparseable title; otherwise equals the order-preserving filter specification |
| NoopReports.EventSurvives | cmd/hecklerd/main.go:911-955 | an event survives if and only if its resource is not ignored and no prior report has it among the events of the same title |
| NoopReports.LogSurvives | cmd/hecklerd/main.go:911-955 | a log survives if and only if its source is a listed, not ignored resource and no prior report has it, under any source |
| NoopReports.DeltaCopies | cmd/hecklerd/main.go:898-955 | a resource that is not ignored is left if and only if an event or a log of it is new; its title, types, file, line and containment path are those of the noop |
| NoopReports.SubtractSelf | cmd/hecklerd/main.go:911-955 | a report minus itself, among any priors, is empty |
| NoopReports.SubtractMore | cmd/hecklerd/main.go:911-955 | more priors only remove, and what is left keeps its order |
| NoopReports.SubtractUnion | cmd/hecklerd/main.go:911-955 | the result depends on the union of the priors only |
| NoopReports.SubtractNothing | cmd/hecklerd/main.go:911-955 | without priors exactly the not ignored resources with an event or log stay, events whole |
| DeltaCoverage.Setting.EventsCovered | cmd/hecklerd/main.go:743-852 | every event of a pending commit is in the delta of that commit or of a pending ancestor from which every commit on the way has it |
| DeltaCoverage.Setting.LogCoverage | cmd/hecklerd/main.go:743-852 | the same for logs, when the new logs in the history of the commit name listed resources |
| DeltaCoverage.Setting.LogsCovered | cmd/hecklerd/main.go:911-955 | all logs in the history of a commit are covered if and only if the new ones among them name listed resources |
| DeltaCoverage.Setting.CoveredIfPending | cmd/hecklerd/main.go:743-852 | an event is in the delta of a pending commit of a history if and only if a pending commit of it has the event |
| DeltaCoverage.Setting.CoveredExactly | cmd/hecklerd/main.go:763-765 | whatever the noops are, all events of an unapplied commit are covered if and only if it is in the lineage of every node |
| DeltaCoverage.Setting.PendingBelow | cmd/hecklerd/main.go:750-762 | what is pending below a commit outside the lineage of a node is on that node already |
| Grouping.DeltaStore.GroupResources | cmd/hecklerd/main.go:1129-1209 | one group takes exactly the deltas with the target's key away, each host once; it loses its line and prints the target's containment path, events, logs and last diff |
| Grouping.DeltaStore.GroupAll | cmd/hecklerd/main.go:824-830 | ranging while deleting ends with empty maps and a partition of the original deltas, each group printing the delta of one of its hosts |
| Grouping.SharedGroup | cmd/hecklerd/main.go:1139-1160 | two hosts share a group of a title if and only if title, type, define type and file agree |
| Grouping.ShownExactly | cmd/hecklerd/main.go:1162-1208 | the groups show every event and log, whichever host each was made from, if and only if deltas of one key print the same |
| Grouping.EventAsShown | cmd/hecklerd/main.go:1174-1195 | an event is shown with its own values, leading colons stripped, and file contents decoded when they can be |
| Grouping.LogsInOrder | cmd/hecklerd/main.go:1196-1207 | the logs of a delta are shown in order without the diffs |
| Grouping.LastDiffKept | cmd/hecklerd/main.go:1196-1200 | the diff shown is the last one, but for its newline |
| Grouping.OneEventLost | cmd/hecklerd/main.go:1139-1160 | two nodes whose deltas differ in their event share a group, and one event is shown by no group |
| Grouping.OneDiffLost | cmd/hecklerd/main.go:1196-1200 | of two diffs in the logs of a delta the first is not shown |
| Grouping.EntriesTaken | cmd/hecklerd/main.go:1139-1160 | the host lists account for every delta taken away: sizes add up |
| Grouping.GroupingIgnoresEvents | cmd/hecklerd/main.go:1139-1160 | deltas that differ in events, logs, lines or containment paths only are grouped the same |
| LockFile.CommentRoundTrip | cmd/rizzod/main.go:287-293 | a stored lock comment reads back as given, trailing newlines aside |
| LockFile.Faultless | cmd/rizzod/main.go:148-285 | what lock, unlock and state requests do and answer when no system call fails, to a free node, to the owner, to a stranger and by force |
| LockFile.LockServer.PuppetLock | cmd/rizzod/main.go:104-127 | the daemon's request handler refines the one-step specification, errors included |
| LockFile.LockServer.Acquire | cmd/rizzod/main.go:171-235 | locking step by step refines the specification for every fault |
| LockFile.LockServer.Release | cmd/rizzod/main.go:260-285 | unlocking refines the specification: only the owner's or a forced unlock removes the file |
| LockFile.LockServer.State | cmd/rizzod/main.go:148-169 | asking for the state refines the specification and changes nothing |
| LockFile.HolderChanges | cmd/rizzod/main.go:171-285 | in any unforced history the file changes only by a granted lock on a free node or its holder's unlock |
| LockFile.GrantExact | cmd/rizzod/main.go:171-235 | creating the lock file is always reported as a grant; a grant created it exactly when linking did not fail, and otherwise changed nothing; no lock request is answered as unlocked |
| LockFile.FailedLinkGrantsTwice | cmd/rizzod/main.go:209-234 | two users are told that they have the lock, without a release, when linking fails for the second |
| LockFile.HolderKeeps | cmd/rizzod/main.go:260-285 | a holder keeps the lock, comment and all, until it releases it |
| LockFile.GrantsAlternate | cmd/rizzod/main.go:171-285 | between any two requests that created the lock file lies a release by the first holder |
| LockFile.NotReentrant | cmd/rizzod/main.go:216-228 | the holder's own second request and a stranger's unlock change nothing, and are refused unless linking failed |
| LockSystem.LockDiscipline | cmd/hecklerd/main.go:2928-2943 | in every reachable state one loop at most is inside the mutex and one apply past the semaphore, both are taken exactly while somebody is there, and a node executing an apply is locked by root unless the run holds a named cause for that node |
| LockSystem.RobsExactly | cmd/rizzod/main.go:171-285 | which requests take a lock file away from root: exactly faultless unlocks by force or in root's name and forced locks by others |
| LockSystem.EveryCauseBreaks | cmd/rizzod/main.go:171-285 | each cause the discipline names, alone in its run, leaves a node executing an apply without root's lock |
| LockSystem.AbandonUnlocks | cmd/hecklerd/main.go:1312-1338 | an apply that outlives its client's deadline runs on an unlocked node |
| LockSystem.ForceUnlocks | cmd/rizzod/main.go:260-285 | a forced unlock frees a node in the middle of its apply |
| LockSystem.HolderCanLeave | cmd/hecklerd/main.go:4294-4299 | from every reachable state the loop in the mutex can run to its end without waiting for anybody, giving back the mutex and, if it is the apply loop, the semaphore |
| LockSystem.WaiterCanEnter | cmd/hecklerd/main.go:4782-4786 | whoever waits for the mutex, semaphore in hand or not, gets in by some continuation: no deadlock |
| Fleets.Fleet.RizzoLock | cmd/hecklerd/main.go:2647-2662 | what any answer, or its loss, tells the client about the lock file while others interfere; hecklerd's other user keeps its locks |
| NodeSets.RizzoLockNodes | cmd/hecklerd/main.go:2604-2635 | every node is asked once, and each of the four sets is exactly the nodes that gave that answer; which nodes are held afterwards is known up to the unanswered ones |
| NodeSets.UnlockNodeSet | cmd/hecklerd/main.go:2571-2593 | the active nodes are those that answered as unlocked and are not held any more; those without an answer join the errors, those held by others the nodes locked by another |
| NodeSets.LockNodeSet | cmd/hecklerd/main.go:2552-2569 | succeeds exactly when the nodes without an answer, with the former errors, and those that answered as locked by another are within the thresholds; then the active nodes are those that gave their locks; otherwise exactly these are asked to take them back, and the former lock files are restored except for named leaks |
| NodeSets.TooMany | cmd/hecklerd/main.go:4229-4244 | a threshold is exceeded by more nodes than a limit that is not negative, and stays exceeded with more nodes |
| NodeSets.RollBackTrace | cmd/hecklerd/main.go:2571-2593 | undoing exactly the locks taken restores every lock file, content included |
| NodeSets.DialNodeSet | cmd/hecklerd/main.go:4246-4260 | the hosts whose dial succeeded are active, those whose dial failed errored, not both when listed once; succeeds exactly within the thresholds |
| NodeSets.EligibleNodeSet | cmd/hecklerd/main.go:4119-4124 | the active nodes are exactly those that answered as free or as the client's own, the others are filed by their answers, and no lock changes |
| NodeSets.LastApplyNodeSet | cmd/hecklerd/main.go:2685-2733 | on success the active nodes are exactly those that answered with a clean commit of the repository, which is their last apply; the others are dealt out by what they answered |
| NodeSets.NodesAccounted | cmd/hecklerd/main.go:2685-2733 | after dialling and asking, distinct hosts are partitioned into active, errored and locked by another; the counts add up |
| NodeSets.BeyondRevNodes | cmd/hecklerd/main.go:1535-1541 | splits the nodes exactly by whether the revision is in the history of their last apply |
| NodeSets.OutcomeSets | cmd/hecklerd/main.go:1519-1575 | the eight outcomes of an apply are exclusive and cover every host |
| NodeSets.ApplyNodeSet | cmd/hecklerd/main.go:1519-1575 | every host has exactly one outcome, told by its recorded answers to the questions for state, last apply and lock, and by Puppet's; the outcomes explain all result sets; each call was made once, under a granted lock, to a node without the revision; all locks are asked back; the errors to report are the reported failures whose unlock was answered |
| NoopRuns.LoadedAreUsable | cmd/hecklerd/main.go:534-597 | what the cache yields was taken against the current last apply, is a substitute, or failed; such a report stored is found again; exactly the stale ones are invalid |
| NoopRuns.LoadedExactly | cmd/hecklerd/main.go:534-597 | by entry and history: a node with the commit gets an empty report; a node without it loads its own report if it failed or has the current last apply, nothing without an entry, a stale one is invalid, and only an unreadable entry, one of another host or one taken against no clean commit is fatal |
| NoopRuns.RequestNoop | cmd/hecklerd/main.go:662-692 | a node that has the commit, or a current or failed report of its own, is answered from the cache; hecklerd dies exactly of a bad entry of a node without the commit; any other node is asked for its lock, and locked, dropped or counted as failed as it answers |
| NoopRuns.CollectNoop | cmd/hecklerd/main.go:697-735 | an honest noop is filed and stored under the node and the commit it was requested for; the lock is asked back |
| NoopRuns.NoopNodeSet | cmd/hecklerd/main.go:655-741 | afterwards every active node has the report the cache would yield again, noops that could be loaded and those of other commits are untouched; dropped nodes are exactly those that answered as locked by another, or gave no answer about the lock or the noop; no lock is kept; hecklerd dies of a bad file exactly when a node without the commit has a bad entry, never with an empty cache, and otherwise only if Puppet names a wrong node or commit |
| GroupReports.CommitInAllNodeLineages | cmd/hecklerd/main.go:4968-4975 | the loop decides whether the commit and the last apply of every node are in one history |
| GroupReports.CommitParentReports | cmd/hecklerd/main.go:432-449 | a report is missing exactly when some parent has none; otherwise the parents' reports in order, and whether one failed |
| GroupReports.CommitsToNoop | cmd/hecklerd/main.go:764-787 | exactly the parents in every lineage are nooped, all others get empty substitutes |
| GroupReports.NoopedByLineage | cmd/hecklerd/main.go:764-787 | by histories: nooped are the commit and, for delta noops, exactly the parents in one history with the last apply of every node; each active node has an empty report for the other parents |
| GroupReports.NothingMissing | cmd/hecklerd/main.go:801-819 | when Puppet names nodes and commits truly, no active node lacks a report its delta needs, whatever the reports say of the last apply |
| GroupReports.ReportsCurrent | cmd/hecklerd/main.go:801-819 | when it is honest, each of these reports is taken against the current last apply, failed, or a substitute |
| GroupReports.MakeDelta | cmd/hecklerd/main.go:801-819 | a node's delta is its report less all its parents' reports; failed and missing reports are told apart |
| GroupReports.GroupReportNodeSet | cmd/hecklerd/main.go:743-852 | noops, deltas and groups together: right deltas from current reports, a partition of them, every node accounted for, groups printed from deltas, loadable noops kept, all locks asked back; only a bad file stops hecklerd when Puppet names nodes and commits truly, and never a missing report |
| GroupReports.CacheKeptOn | cmd/hecklerd/main.go:534-597 | keeping the noops that could be loaded is transitive: successive reports keep them |
| ReportRuns.Site.OneNoop | cmd/hecklerd/main.go:534-597 | a commit has one noop per node: any two runs used the same report of it, as its own or as that of a parent |
| ReportRuns.Site.DeltaAsSpecified | cmd/hecklerd/main.go:801-819 | the delta a run made from the collected reports is the one delta coverage is about, also with any later cache |
| ReportRuns.KeptSince | cmd/hecklerd/main.go:534-597 | over any number of runs with the same last applies a noop once usable stays in the cache |
| ReportRuns.RunReport | cmd/hecklerd/main.go:534-597 | the noop of a commit, whenever it is loaded again, is the report its own run used |
| ReportRuns.RunReports | cmd/hecklerd/main.go:4824-4850 | freshly dialled nodes are asked for their last applies and nooped; the run recorded is right, starts from the cache found, and only makes noops under granted locks |
| ReportRuns.ReportCommit | cmd/hecklerd/main.go:4814-4867 | a commit without a report is run once; what is written to disk, if anything, is the result of that recorded run |
| ReportRuns.Noop | cmd/hecklerd/main.go:4788-4869 | a round visits exactly the commits between common tag and branch, noops each at most once and only without a report, never changes a report on disk, and keeps every report explained by its run |
| ReportRuns.DroppedUnlisted | cmd/hecklerd/main.go:799-830 | a node dropped from a run is listed by no resource of the report |
| ReportRuns.InReport | cmd/hecklerd/main.go:824-830 | a change in the delta of a covered node belongs to exactly one resource listing it; that resource prints the delta of one of its nodes, and the change when grouped deltas agree |
| ReportRuns.EveryChangeReported | cmd/hecklerd/main.go:4788-4869 | over all runs: every event in a pending commit's noop is in the delta of a reported commit, it or an ancestor, where exactly one resource lists the node; the resource prints the event when grouped deltas agree |
| ReportRuns.EveryLogReported | cmd/hecklerd/main.go:4788-4869 | the same for logs, when the new logs in the history of the commit name listed resources |
| DirtyClean.ConsideredFacts | cmd/hecklerd/main.go:4643-4685 | in the lineage of the branch the list starts with the last apply and holds every commit from there to the head, or is the first ten of them as walked; beside the branch the same from ten before the head; fails exactly when the branch does not resolve |
| DirtyClean.TryCommit | cmd/hecklerd/main.go:4717-4755 | a commit is remembered exactly when its noop was answered, and really applied exactly when that noop listed nothing, whatever its status |
| DirtyClean.CleanListed | cmd/hecklerd/main.go:4679-4770 | the commits not nooped before are tried under the lock, one after the other, until one cleans the node; not cleaned without an error means that all were nooped now or before |
| DirtyClean.CleanNode | cmd/hecklerd/main.go:4640-4770 | answered noops are never repeated and, for an unchanged branch, ten at most ever; clean says that a commit with an empty noop was applied; not clean without an error means that the last apply and, with less than ten to try, every commit up to the head were nooped now or before; the lock is always asked back |
| DirtyClean.DirtyMemos.Refresh | cmd/hecklerd/main.go:4316-4330 | node by node the memo survives exactly for nodes still dirty at the same commit, starts afresh at another, and is dropped otherwise |
| DirtyClean.DirtyMemos.Clean | cmd/hecklerd/main.go:4294-4352 | one round: each node's refreshed memo gains exactly the commits the log shows answered for it, and held none of them before |
| DirtyClean.RoundGoesOn | cmd/hecklerd/main.go:4294-4352 | such a round extends the history of a memo that the laws about memos speak of |
| DirtyClean.Remembered | cmd/hecklerd/main.go:4316-4330 | a round remembers a commit if and only if it was answered earlier and the node stayed dirty at one commit since |
| DirtyClean.NeverTwice | cmd/hecklerd/main.go:4316-4350 | while a node stays dirty at one commit no noop is answered twice |
| DirtyClean.ForgottenWhenAway | cmd/hecklerd/main.go:4316-4320 | a node missing from one round is nooped with the same commit again |
| Approval.IntersectionOwnersApprovers | cmd/hecklerd/main.go:3729-3741 | yields exactly the approvers who are an owner or a member of a group that owns; some exactly when one approved |
| Approval.ResourcesApproved | cmd/hecklerd/main.go:3683-3724 | the counting loop is true if and only if every resource is approved by its file, its module or all its node files; the labels and approvers recorded say which |
| Approval.OwnersNeeded | cmd/hecklerd/main.go:3745-3767 | lists, once each, exactly the owners of unapproved resources: those of the file, else of the module, else of each node file, admins for node files without owners |
| Approval.AdminOwnerApproved | cmd/hecklerd/main.go:3218-3228 | true if and only if an admin approved; the labels of resources stay |
| Approval.NoopApproved | cmd/hecklerd/main.go:3171-3216 | the verdict: codeowners when authors are known and owners other than them approve every resource, else an admin, author or not; with no author known nobody is listed |
| Approval.ApprovedByUsers | cmd/hecklerd/main.go:3683-3741 | a resource is approved if and only if an approver is, or is in a group that is, an owner of its source file, or of its module, or there are node files and each has one |
| Approval.ApprovesMonotone | cmd/hecklerd/main.go:3683-3741 | more approvers never undo an approval |
| Approval.NonAuthorApproved | cmd/hecklerd/main.go:3195-3204 | a codeowner approval means that every resource has an approving owner who is no author |
| Approval.AskedSuffices | cmd/hecklerd/main.go:3745-3767 | answers of the owners asked about one resource approve it, or an admin has approved |
| Approval.ListedSuffice | cmd/hecklerd/main.go:3745-3767 | when all listed owners answered, the noop is approved if and only if an admin approved or authors are known and every resource had somebody to ask |
| Release.ClassifyCommit | cmd/hecklerd/main.go:4063-4106 | approved if and only if the issue has the milestone of this tag, a report is on disk, and issues close automatically, the report is empty, an admin approved, or codeowners other than the known authors approve every resource; unapproved with any other issue or none; undetermined if and only if an answer that matters is missing |
| Release.ClearedReviewed | cmd/hecklerd/main.go:4084-4105 | without automatic closing, a passed commit that changes resources has an admin's approval or, for every resource, that of an owner who is no author |
| Release.ClearedBySomebody | cmd/hecklerd/main.go:4084-4105 | a passed commit that needed consent was approved by somebody entitled if and only if it changes a resource or an admin approved |
| Release.EvalErrorsPass | cmd/hecklerd/main.go:3037-3041 | a report with evaluation errors only passes with nobody's approval once an author is known |
| Release.ClearedWithoutAuthors | cmd/hecklerd/main.go:3195-3216 | a cleared commit stays cleared without its authors' approvals if and only if codeowners approved it or some approving admin is no author |
| Release.AuthorAdminPasses | cmd/hecklerd/main.go:3206-3228 | an admin alone clears a commit of which he is the only author |
| Release.TagApproved | cmd/hecklerd/main.go:4048-4113 | true if and only if the range is not empty and every commit of it is cleared, each with an issue of this tag's milestone and a report on disk; an error exactly with an open commit or an empty range |
| Release.TagReadyAndApproved | cmd/hecklerd/main.go:2866-2889 | ready exactly when the milestone exists, every commit of a range that is not empty is cleared, and the milestone is closed or can be; an error exactly when one could not be determined |
| Release.GreatestTagApproved | cmd/hecklerd/main.go:2891-2917 | returns the last tag only, and exactly when all next tags are ready one after the other |
| Release.Telescope | cmd/hecklerd/main.go:2891-2917 | the ranges of consecutive tags cover everything between the prior tag and the last ready one |
| Release.CommonAncestorTag | cmd/hecklerd/main.go:5011-5053 | the earliest tag that describes a node; none exactly without nodes |
| Release.CommonTagInHistory | cmd/hecklerd/main.go:5011-5053 | for tags ordered by ancestry the common tag is in the history of every node asked |
| Release.ReleaseSafety | cmd/hecklerd/main.go:2891-2917 | every commit the released tag brings to a node with the common tag was classed approved |
| Release.ReleaseReviewed | cmd/hecklerd/main.go:2891-2917 | every such commit has an issue with the milestone of one of the released tags, and each change in its report passed by automatic closing, an admin or an owner who is no author; where consent was needed, somebody gave it exactly as ClearedBySomebody says |
| Release.ReleaseSafetyExact | cmd/hecklerd/main.go:2891-2917 | for any node: all it receives was classed approved if and only if it has the common tag |
| ApplyRun.CommonTagNodeSet | cmd/hecklerd/main.go:4263-4277 | the common tag is the earliest among nodes whose reported last apply is known; no lock changes |
| ApplyRun.NextTagsInRepo | cmd/hecklerd/main.go:5128-5138 | all tags above the prior one and none below it |
| ApplyRun.ChooseTag | cmd/hecklerd/main.go:2958-2980 | a tag is released only with all next tags ready, and always then |
| ApplyRun.RollOut | cmd/hecklerd/main.go:2994-3028 | the sets attempted are a prefix of the order, all but the last went well, and only an error stops early; every call is due; a node applied to successfully is not called again |
| ApplyRun.OnceStep | cmd/hecklerd/main.go:1535-1541 | a node that runs the revision is beyond it for the later sets |
| ApplyRun.ErrorsStep | cmd/hecklerd/main.go:3011-3015 | the errors collected over the sets are nodes whose apply reported a failure, and miss only nodes whose unlock was not answered |
| ApplyRun.LockErroredNodes | cmd/hecklerd/main.go:4370-4395 | locks as heckler, without rolling back, exactly the failed nodes that were reached and answered that the lock is heckler's; root's locks stay |
| ApplyRun.ReportErrors | cmd/hecklerd/main.go:4397-4466 | heckler gains failed nodes only; all of them are held or unreached when reporting went through; nothing is locked if a node has no node file |
| ApplyRun.Apply | cmd/hecklerd/main.go:2928-3035 | a run releases nothing, or a well chosen tag by a staged rollout; root's locks are all asked back; heckler ends up holding besides its old locks only nodes that failed in this run; every call brings only approved commits if and only if its node had the common tag |
| ApplyRun.NothingUnapproved | cmd/hecklerd/main.go:2928-3035 | every commit the run brings to a node it had asked was found approved by that run, with an issue of the milestone of one of the next tags |
| ApplyRun.ApprovedExactly | cmd/hecklerd/main.go:2928-3035 | for each apply call to any node: all it brings was found approved if and only if the node had the common tag |
| Pipeline.ChainReviewed | cmd/hecklerd/main.go:2928-3035 | every commit that releases whose common tags follow each other bring to a node was reviewed by one of them, with an issue of the milestone of one of its tags |
| Pipeline.World.ReviewedExactly | cmd/hecklerd/main.go:2928-3035 | an event was reviewed with a released commit's history if and only if it is in the delta of a pending commit there whose report covers the node |
| Pipeline.World.ReviewedIfPending | cmd/hecklerd/main.go:2928-3035 | when the node took part in the reports of the history: if and only if a pending commit of it has the event |
| Pipeline.World.NewChangeReviewed | cmd/hecklerd/main.go:763-765 | an event new with a released commit was reviewed if and only if the commit is in the lineage of all nodes and its report covers the node |
| Pipeline.World.EveryChangeReviewed | cmd/hecklerd/main.go:2928-3035 | end to end: every event of a released commit in all lineages, for a node that took part, is in a delta of the release; exactly one resource on disk lists the node there, it passed by automatic closing, an admin or an owner who is no author, and prints the event when grouped deltas agree |
| Pipeline.World.EveryLogReviewed | cmd/hecklerd/main.go:2928-3035 | the same for logs, when new logs name listed resources |
| Pipeline.OutsideCleared | cmd/hecklerd/main.go:4064-4081 | a commit filed as outside some lineage passes if and only if its issue has the milestone of the tag |
| Pipeline.SideBranchUnreviewed | cmd/hecklerd/main.go:763-765 | a tag is ready, with nobody's approval, whose commit brings a node an event that no delta has |

## Left out

- Forced locks and forced applies of hecklerd itself; forced requests and unlocks in root's name from outside are in `LockSystem` as causes.
- The order of steps inside one lock request of rizzod: stat, owner and remove are one atomic step.
- `Fleets.Fleet`: handing over a lock file and linking it is taken to work; `LockFile` and `LockSystem` model these faults.
- `LockSystem.LockDiscipline`: the bodies of the loops are over-approximated, any order of locking, applying and unlocking their nodes.
- Puppet runs started by hand on a node while hecklerd works on it.
- The pre-release part of a version is a rank, and build metadata has none; parsing versions is a parameter.
- libgit2: the walker's tie-breaking (`CommitLogIdList` takes any order with ancestors first), `describe`, revision parsing.
- `ShallowEquality.ShallowEqual`: embedded nil pointers. `NoopReports` takes the cached sizes of messages to be equal.
- `Grouping.DeltaStore.GroupResources`: hosts are listed in any order, not sorted; base64 is a parameter, and a missing containment path, which stops hecklerd, is not modelled.
- Normalising logs and file names, containment path modules, ignore rules, CODEOWNERS matching and group membership: their results are inputs.
- Node maps are sets of hosts, one node per host; a host dialled twice is one node.
- `Release.ClassifyCommit`: GitHub and the disk are given answers; closing milestones either works or does not.
- `DirtyClean.DirtyMemos.Refresh`: finding the dirty nodes is not modelled, and nodes are cleaned one at a time rather than concurrently.
- `DirtyClean.CleanNode`: a node whose last apply is the zero commit, which stops hecklerd.
- `NoopRuns.NoopNodeSet`: requests and answers are handled node by node; a disk that refuses a noop is not modelled.
- `GroupReports.GroupReportNodeSet`: grouping error messages; nodes dropped by errors or locks are reported but not reviewed. Whether a report counts as having evaluation errors is an input of `Release`.
- `ReportRuns.Noop`: a disk that refuses to store a report stops hecklerd and is not modelled; issues are created or not.
- `ReportRuns.EveryChangeReported`: last applies stay the same over the runs, and the node takes part in each of them. `Pipeline` carries the reports through any number of later releases, but not into noops taken after one of them.
- `ApplyRun.ReportErrors`: the text of the issues; a host that failed in two sets is dialled once.
- The approval and milestone loops, reporting by chat, and the remote procedures of hecklerd.
