/** Who may approve a noop: the counting loops over grouped resources, the
    owners still needed, and what the answers of those owners achieve. */
module Approval {
  import opened Wrappers

  type Login = string
  type Groups = map<Login, seq<Login>>

  /** The owners of one grouped resource, as read from CODEOWNERS. */
  datatype Ownership = Ownership(file: string, fileOwners: seq<Login>, moduleOwners: seq<Login>,
                                 nodeFiles: seq<string>, nodeFileOwners: map<string, seq<Login>>)
  {
    /** Source file owners are only looked up when there is a source file. */
    predicate Valid() {
      file == "" ==> fileOwners == []
    }

    function OwnersOf(nodeFile: string): seq<Login> {
      if nodeFile in nodeFileOwners then nodeFileOwners[nodeFile] else []
    }
  }

  datatype ResourceApproval = ResourceNotApproved | SourceFileApproved | ModuleApproved | NodesApproved
  datatype NoopApproval = NotApproved | CodeownersApproved | AdminApproved
  datatype NoopStatus = NoopStatus(approved: NoopApproval, ownersNeeded: seq<Login>)

  class OwnedResource {
    const own: Ownership
    var approved: ResourceApproval
    var fileApprovals: seq<Login>
    var moduleApprovals: seq<Login>
    var nodeFileApprovals: map<string, seq<Login>>
    var adminApprovals: seq<Login>

    constructor (own: Ownership)
      ensures this.own == own && approved == ResourceNotApproved
    {
      this.own, approved := own, ResourceNotApproved;
      fileApprovals, moduleApprovals, nodeFileApprovals, adminApprovals := [], [], map[], [];
    }
  }

  /** A group stands for its members, any other owner for itself. */
  function Expand(owner: Login, groups: Groups): seq<Login> {
    if owner in groups then groups[owner] else [owner]
  }

  /** One of the owners is, or has as a member, one of the approvers. */
  ghost predicate HasApprover(owners: seq<Login>, groups: Groups, approvers: set<Login>) {
    exists o, u :: o in owners && u in Expand(o, groups) && u in approvers
  }

  /** Every node file of the resource has an approving owner. */
  ghost predicate AllNodeFiles(own: Ownership, groups: Groups, approvers: set<Login>) {
    forall f :: f in own.nodeFiles ==> HasApprover(own.OwnersOf(f), groups, approvers)
  }

  /** A resource is approved through its source file, its module, or all of its node files. */
  ghost predicate Approves(own: Ownership, groups: Groups, approvers: set<Login>) {
    || (own.file != "" && HasApprover(own.fileOwners, groups, approvers))
    || HasApprover(own.moduleOwners, groups, approvers)
    || (own.nodeFiles != [] && AllNodeFiles(own, groups, approvers))
  }

  /** A source file goes before a module, a module before node files. */
  ghost function ApprovalOf(own: Ownership, groups: Groups, approvers: set<Login>): (a: ResourceApproval)
    ensures a == ResourceNotApproved <==> !Approves(own, groups, approvers)
    ensures a == SourceFileApproved <==> own.file != "" && HasApprover(own.fileOwners, groups, approvers)
    ensures a == ModuleApproved ==> HasApprover(own.moduleOwners, groups, approvers)
    ensures a == NodesApproved ==> !HasApprover(own.moduleOwners, groups, approvers)
  {
    if own.file != "" && HasApprover(own.fileOwners, groups, approvers) then SourceFileApproved
    else if HasApprover(own.moduleOwners, groups, approvers) then ModuleApproved
    else if own.nodeFiles != [] && AllNodeFiles(own, groups, approvers) then NodesApproved
    else ResourceNotApproved
  }

  function ToSet(s: seq<Login>): set<Login> {
    set x | x in s
  }

  lemma ToSetAppend(s: seq<Login>, x: Login)
    ensures ToSet(s + [x]) == ToSet(s) + {x}
  {
  }

  method SetDifferenceStrSlice(a: seq<Login>, b: seq<Login>) returns (c: seq<Login>)
    ensures ToSet(c) == ToSet(a) - ToSet(b)
  {
    c := [];
    var mapB := ToSet(b);
    for i := 0 to |a|
      invariant ToSet(c) == ToSet(a[..i]) - ToSet(b)
    {
      ToSetAppend(a[..i], a[i]);
      ToSetAppend(c, a[i]);
      assert a[..i+1] == a[..i] + [a[i]];
      if a[i] !in mapB {
        c := c + [a[i]];
      }
    }
    assert a[..|a|] == a;
  }

  method SetIntersectionStrSlice(a: seq<Login>, b: seq<Login>) returns (c: seq<Login>)
    ensures ToSet(c) == ToSet(a) * ToSet(b)
  {
    c := [];
    var mapB := ToSet(b);
    for i := 0 to |a|
      invariant ToSet(c) == ToSet(a[..i]) * ToSet(b)
    {
      ToSetAppend(a[..i], a[i]);
      ToSetAppend(c, a[i]);
      assert a[..i+1] == a[..i] + [a[i]];
      if a[i] in mapB {
        c := c + [a[i]];
      }
    }
    assert a[..|a|] == a;
  }

  /** The approving owners, groups replaced by their members. */
  ghost predicate AreApprovingOwners(r: seq<Login>, owners: seq<Login>, groups: Groups, approvers: set<Login>) {
    && (forall u :: u in r ==> u in approvers && exists o :: o in owners && u in Expand(o, groups))
    && (forall o, u :: o in owners && u in Expand(o, groups) && u in approvers ==> u in r)
  }

  method IntersectionOwnersApprovers(owners: seq<Login>, approvers: seq<Login>, groups: Groups)
    returns (r: seq<Login>)
    ensures AreApprovingOwners(r, owners, groups, ToSet(approvers))
    ensures |r| > 0 <==> HasApprover(owners, groups, ToSet(approvers))
    ensures forall u :: u in r <==>
                        u in approvers && exists o :: o in owners && if o in groups then u in groups[o] else u == o
  {
    var expandedOwners: seq<Login> := [];
    for i := 0 to |owners|
      invariant forall u :: u in expandedOwners <==> exists o :: o in owners[..i] && u in Expand(o, groups)
    {
      var owner := owners[i];
      assert owners[..i+1] == owners[..i] + [owner];
      ghost var before := expandedOwners;
      if owner in groups {
        var users := groups[owner];
        for j := 0 to |users|
          invariant expandedOwners == before + users[..j]
        {
          expandedOwners := expandedOwners + [users[j]];
        }
        assert users[..|users|] == users;
      } else {
        expandedOwners := expandedOwners + [owner];
      }
      assert expandedOwners == before + Expand(owner, groups);
    }
    assert owners[..|owners|] == owners;
    r := SetIntersectionStrSlice(expandedOwners, approvers);
    assert forall u :: u in r <==> u in ToSet(r);
    assert |r| > 0 ==> r[0] in r;
  }

  /** What the loop leaves in a grouped resource: its approval and the approvers it is due to. */
  ghost predicate Recorded(gr: OwnedResource, groups: Groups, approvers: set<Login>)
    reads gr
  {
    && gr.approved == ApprovalOf(gr.own, groups, approvers)
    && (gr.approved == SourceFileApproved ==>
          gr.fileApprovals != [] && AreApprovingOwners(gr.fileApprovals, gr.own.fileOwners, groups, approvers))
    && (gr.approved == ModuleApproved ==>
          gr.moduleApprovals != [] && AreApprovingOwners(gr.moduleApprovals, gr.own.moduleOwners, groups, approvers))
    && (gr.approved == NodesApproved ==>
          forall f :: f in gr.own.nodeFiles ==>
                        f in gr.nodeFileApprovals && gr.nodeFileApprovals[f] != []
                        && AreApprovingOwners(gr.nodeFileApprovals[f], gr.own.OwnersOf(f), groups, approvers))
  }

  method ResourcesApproved(groupedResources: seq<OwnedResource>, groups: Groups, approvers: seq<Login>)
    returns (all: bool)
    modifies groupedResources
    ensures all <==> forall gr :: gr in groupedResources ==> Approves(gr.own, groups, ToSet(approvers))
    ensures forall gr :: gr in groupedResources ==> Recorded(gr, groups, ToSet(approvers))
  {
    var approvedResources := 0;
    for i := 0 to |groupedResources|
      invariant forall k :: 0 <= k < i ==> Recorded(groupedResources[k], groups, ToSet(approvers))
      invariant approvedResources <= i
      invariant approvedResources == i <==>
                forall k :: 0 <= k < i ==> Approves(groupedResources[k].own, groups, ToSet(approvers))
    {
      var ok := ResourceApproved(groupedResources[i], groups, approvers);
      if ok {
        approvedResources := approvedResources + 1;
      }
    }
    all := |groupedResources| == approvedResources;
  }

  /** The body of the loop over grouped resources. */
  method ResourceApproved(gr: OwnedResource, groups: Groups, approvers: seq<Login>) returns (ok: bool)
    modifies gr
    ensures ok <==> Approves(gr.own, groups, ToSet(approvers))
    ensures Recorded(gr, groups, ToSet(approvers))
  {
    gr.approved := ResourceNotApproved;
    if gr.own.file != "" {
      gr.fileApprovals := IntersectionOwnersApprovers(gr.own.fileOwners, approvers, groups);
      if |gr.fileApprovals| > 0 {
        gr.approved := SourceFileApproved;
        return true;
      }
    }
    if |gr.own.moduleOwners| > 0 {
      gr.moduleApprovals := IntersectionOwnersApprovers(gr.own.moduleOwners, approvers, groups);
      if |gr.moduleApprovals| > 0 {
        gr.approved := ModuleApproved;
        return true;
      }
    }
    var nodeFilesApprovers, approvedNodeFiles := NodeFilesApproved(gr.own, groups, approvers);
    gr.nodeFileApprovals := nodeFilesApprovers;
    if |gr.own.nodeFiles| > 0 && |gr.own.nodeFiles| == approvedNodeFiles {
      gr.approved := NodesApproved;
      return true;
    }
    return false;
  }

  /** An approval in terms of the users: an approver is, or belongs to, an owner
      of the source file, or one of the module, or one of each node file there is. */
  lemma ApprovedByUsers(own: Ownership, groups: Groups, approvers: set<Login>)
    ensures Approves(own, groups, approvers) <==>
            || (own.file != "" && exists o, u :: o in own.fileOwners && u in approvers
                                                 && if o in groups then u in groups[o] else u == o)
            || (exists o, u :: o in own.moduleOwners && u in approvers
                               && if o in groups then u in groups[o] else u == o)
            || (own.nodeFiles != []
                && forall f :: f in own.nodeFiles ==>
                     f in own.nodeFileOwners
                     && exists o, u :: o in own.nodeFileOwners[f] && u in approvers
                                       && if o in groups then u in groups[o] else u == o)
  {
    ApproverSpelled(own.fileOwners, groups, approvers);
    ApproverSpelled(own.moduleOwners, groups, approvers);
    hide HasApprover, Expand;
    forall f | f in own.nodeFiles
      ensures HasApprover(own.OwnersOf(f), groups, approvers) <==>
              f in own.nodeFileOwners
              && exists o, u :: o in own.nodeFileOwners[f] && u in approvers
                                && if o in groups then u in groups[o] else u == o
    {
      ApproverSpelled(own.OwnersOf(f), groups, approvers);
    }
  }

  lemma ApproverSpelled(owners: seq<Login>, groups: Groups, approvers: set<Login>)
    ensures HasApprover(owners, groups, approvers)
        <==> exists o, u :: o in owners && u in approvers && if o in groups then u in groups[o] else u == o
  {
    if HasApprover(owners, groups, approvers) {
      var o, u :| o in owners && u in Expand(o, groups) && u in approvers;
      assert if o in groups then u in groups[o] else u == o;
    }
    if o, u :| o in owners && u in approvers && if o in groups then u in groups[o] else u == o {
      assert u in Expand(o, groups);
    }
  }

  method NodeFilesApproved(own: Ownership, groups: Groups, approvers: seq<Login>)
    returns (nodeFilesApprovers: map<string, seq<Login>>, approvedNodeFiles: nat)
    ensures approvedNodeFiles == |own.nodeFiles| <==> AllNodeFiles(own, groups, ToSet(approvers))
    ensures forall f :: f in own.nodeFiles ==>
                          f in nodeFilesApprovers
                          && AreApprovingOwners(nodeFilesApprovers[f], own.OwnersOf(f), groups, ToSet(approvers))
                          && (nodeFilesApprovers[f] != [] <==> HasApprover(own.OwnersOf(f), groups, ToSet(approvers)))
  {
    hide AreApprovingOwners, HasApprover;
    var files := own.nodeFiles;
    nodeFilesApprovers := map[];
    approvedNodeFiles := 0;
    for j := 0 to |files|
      invariant forall k :: 0 <= k < j ==> files[k] in nodeFilesApprovers
      invariant forall f :: f in nodeFilesApprovers ==>
                              AreApprovingOwners(nodeFilesApprovers[f], own.OwnersOf(f), groups, ToSet(approvers))
      invariant forall f :: f in nodeFilesApprovers ==>
                              (nodeFilesApprovers[f] != [] <==> HasApprover(own.OwnersOf(f), groups, ToSet(approvers)))
      invariant approvedNodeFiles <= j
      invariant approvedNodeFiles == j <==>
                forall k :: 0 <= k < j ==> HasApprover(own.OwnersOf(files[k]), groups, ToSet(approvers))
    {
      var r := IntersectionOwnersApprovers(own.OwnersOf(files[j]), approvers, groups);
      nodeFilesApprovers := nodeFilesApprovers[files[j] := r];
      if |r| > 0 {
        approvedNodeFiles := approvedNodeFiles + 1;
      }
    }
    assert forall k :: 0 <= k < |files| ==> files[k] in files;
  }

  method UniqueStrSlice(strSlice: seq<string>) returns (uniqueList: seq<string>)
    ensures ToSet(uniqueList) == ToSet(strSlice)
    ensures Distinct(uniqueList)
  {
    uniqueList := ListOf(ToSet(strSlice));
  }

  /** The owners asked to approve one unapproved resource. */
  ghost predicate IsNeeded(own: Ownership, admins: seq<Login>, o: Login) {
    if own.fileOwners != [] then o in own.fileOwners
    else if own.moduleOwners != [] then o in own.moduleOwners
    else exists f :: f in own.nodeFiles && o in AskedFor(own, f, admins)
  }

  /** A node file without owners is the admins' business. */
  function AskedFor(own: Ownership, nodeFile: string, admins: seq<Login>): seq<Login> {
    if own.OwnersOf(nodeFile) != [] then own.OwnersOf(nodeFile) else admins
  }

  method OwnersNeeded(groupedResources: seq<OwnedResource>, admins: seq<Login>) returns (needed: seq<Login>)
    ensures forall o :: o in needed <==> exists gr :: gr in groupedResources && gr.approved == ResourceNotApproved
                                                      && IsNeeded(gr.own, admins, o)
    ensures Distinct(needed)
    ensures forall o :: o in needed <==> exists gr ::
              gr in groupedResources && gr.approved == ResourceNotApproved && var own := gr.own;
              if own.fileOwners != [] then o in own.fileOwners
              else if own.moduleOwners != [] then o in own.moduleOwners
              else exists f :: f in own.nodeFiles
                               && if f in own.nodeFileOwners && own.nodeFileOwners[f] != []
                                  then o in own.nodeFileOwners[f] else o in admins
  {
    var owners: seq<Login> := [];
    for i := 0 to |groupedResources|
      invariant forall o :: o in owners <==> exists k :: 0 <= k < i && IsAsked(groupedResources[k], admins, o)
    {
      var gr := groupedResources[i];
      ghost var before := owners;
      if gr.approved != ResourceNotApproved { continue; }
      if |gr.own.fileOwners| > 0 {
        owners := owners + gr.own.fileOwners;
      } else if |gr.own.moduleOwners| > 0 {
        owners := owners + gr.own.moduleOwners;
      } else {
        var files := gr.own.nodeFiles;
        for j := 0 to |files|
          invariant forall o :: o in owners <==>
                                o in before || exists k :: 0 <= k < j && o in AskedFor(gr.own, files[k], admins)
        {
          if |gr.own.OwnersOf(files[j])| > 0 {
            owners := owners + gr.own.OwnersOf(files[j]);
          } else {
            owners := owners + admins;
          }
        }
      }
      assert forall o :: o in owners <==> o in before || IsNeeded(gr.own, admins, o);
    }
    needed := UniqueStrSlice(owners);
    forall o ensures o in needed <==> o in owners {
      assert o in needed <==> o in ToSet(needed);
    }
  }

  ghost predicate IsAsked(gr: OwnedResource, admins: seq<Login>, o: Login)
    reads gr
  {
    gr.approved == ResourceNotApproved && IsNeeded(gr.own, admins, o)
  }

  method AdminOwnerApproved(groupedResources: seq<OwnedResource>, adminOwners: seq<Login>, approvers: seq<Login>)
    returns (approved: bool)
    modifies groupedResources
    ensures approved <==> exists a :: a in adminOwners && a in approvers
    ensures approved ==> forall gr :: gr in groupedResources ==>
                                        ToSet(gr.adminApprovals) == ToSet(adminOwners) * ToSet(approvers)
    ensures forall gr :: gr in groupedResources ==> gr.approved == old(gr.approved)
  {
    var validApprovers := SetIntersectionStrSlice(adminOwners, approvers);
    forall a ensures a in validApprovers <==> a in adminOwners && a in approvers {
      assert a in validApprovers <==> a in ToSet(validApprovers);
      assert a in ToSet(adminOwners) * ToSet(approvers) <==> a in adminOwners && a in approvers;
    }
    if |validApprovers| > 0 {
      assert validApprovers[0] in validApprovers;
      for i := 0 to |groupedResources|
        invariant forall k :: 0 <= k < i ==> groupedResources[k].adminApprovals == validApprovers
        invariant forall gr :: gr in groupedResources ==> gr.approved == old(gr.approved)
      {
        groupedResources[i].adminApprovals := validApprovers;
      }
      return true;
    }
    return false;
  }

  /** The verdict on a noop. Authors do not count as codeowners; when no author
      is known, only an admin can approve. An admin may well be an author. */
  ghost function Verdict(owns: set<Ownership>, groups: Groups, approvers: set<Login>, authors: set<Login>,
                         admins: seq<Login>): NoopApproval
  {
    if authors != {} && (forall own :: own in owns ==> Approves(own, groups,
                                                                approvers - authors)) then CodeownersApproved
    else if exists a :: a in admins && a in approvers then AdminApproved
    else NotApproved
  }

  ghost function Owns(grs: seq<OwnedResource>): set<Ownership> {
    set gr | gr in grs :: gr.own
  }

  method NoopApproved(groupedResources: seq<OwnedResource>, groups: Groups, approvers: seq<Login>,
                      authors: seq<Login>, admins: seq<Login>) returns (status: NoopStatus)
    modifies groupedResources
    ensures status.approved == Verdict(Owns(groupedResources), groups, ToSet(approvers), ToSet(authors), admins)
    ensures status.approved == CodeownersApproved <==>
            authors != [] && forall gr :: gr in groupedResources ==>
                               Approves(gr.own, groups, ToSet(approvers) - ToSet(authors))
    ensures status.approved != CodeownersApproved ==>
              (status.approved == AdminApproved <==> exists a :: a in admins && a in approvers)
    ensures authors == [] ==> status.ownersNeeded == []
    ensures forall o :: o in status.ownersNeeded <==>
                        IsListed(Owns(groupedResources), groups, ToSet(approvers), ToSet(authors), admins, o)
  {
    var codeownersHaveApproved := false;
    var ownersNeeded: seq<Login> := [];
    if |authors| > 0 {
      assert authors[0] in ToSet(authors);
      var validApprovers := SetDifferenceStrSlice(approvers, authors);
      codeownersHaveApproved := ResourcesApproved(groupedResources, groups, validApprovers);
      ownersNeeded := OwnersNeeded(groupedResources, admins);
      forall gr | gr in groupedResources
        ensures gr.own in Owns(groupedResources)
        ensures gr.approved == ResourceNotApproved <==>
                !Approves(gr.own, groups, ToSet(approvers) - ToSet(authors))
      {
      }
    }
    var adminHasApproved := false;
    if !codeownersHaveApproved {
      adminHasApproved := AdminOwnerApproved(groupedResources, admins, approvers);
    }
    if codeownersHaveApproved {
      status := NoopStatus(CodeownersApproved, ownersNeeded);
    } else if adminHasApproved {
      status := NoopStatus(AdminApproved, ownersNeeded);
    } else {
      status := NoopStatus(NotApproved, ownersNeeded);
    }
  }

  /** An owner a noop still waits for. */
  ghost predicate IsListed(owns: set<Ownership>, groups: Groups, approvers: set<Login>, authors: set<Login>,
                           admins: seq<Login>, o: Login)
  {
    authors != {} && exists own :: own in owns && !Approves(own, groups, approvers - authors) && IsNeeded(own, admins,
                                                                                                          o)
  }

  // ----------------------------------------------------------- the properties

  /** More approvers never undo an approval. */
  lemma ApprovesMonotone(own: Ownership, groups: Groups, few: set<Login>, many: set<Login>)
    requires few <= many && Approves(own, groups, few)
    ensures Approves(own, groups, many)
  {
  }

  ghost predicate IsOwner(own: Ownership, o: Login) {
    o in own.fileOwners || o in own.moduleOwners || exists f :: f in own.nodeFiles && o in own.OwnersOf(f)
  }

  /** Some approver other than the authors is, or belongs to, an owner of the resource. */
  ghost predicate OwnerApproved(own: Ownership, groups: Groups, approvers: set<Login>, authors: set<Login>) {
    exists o, u :: IsOwner(own, o) && u in Expand(o, groups) && u in approvers && u !in authors
  }

  /** A codeowner approval means that every resource has an owner, other than
      the authors, among those who approved. */
  lemma NonAuthorApproved(owns: set<Ownership>, groups: Groups, approvers: set<Login>, authors: set<Login>,
                          admins: seq<Login>, own: Ownership)
    requires Verdict(owns, groups, approvers, authors, admins) == CodeownersApproved && own in owns
    ensures OwnerApproved(own, groups, approvers, authors)
  {
    var valid := approvers - authors;
    assert Approves(own, groups, valid);
    if own.file != "" && HasApprover(own.fileOwners, groups, valid) {
      var o, u :| o in own.fileOwners && u in Expand(o, groups) && u in valid;
      assert IsOwner(own, o);
    } else if HasApprover(own.moduleOwners, groups, valid) {
      var o, u :| o in own.moduleOwners && u in Expand(o, groups) && u in valid;
      assert IsOwner(own, o);
    } else {
      var f := own.nodeFiles[0];
      assert f in own.nodeFiles && HasApprover(own.OwnersOf(f), groups, valid);
      var o, u :| o in own.OwnersOf(f) && u in Expand(o, groups) && u in valid;
      assert IsOwner(own, o);
    }
  }

  /** There is somebody to ask about the resource. */
  ghost predicate Askable(own: Ownership, admins: seq<Login>) {
    || own.fileOwners != [] || own.moduleOwners != []
    || (own.nodeFiles != [] && (admins != [] || forall f :: f in own.nodeFiles ==> own.OwnersOf(f) != []))
  }

  /** A listed owner answered: a non-author of its expansion approved; an admin did so in person. */
  ghost predicate Answered(o: Login, groups: Groups, approvers: set<Login>, authors: set<Login>, admins: seq<Login>) {
    && (exists u :: u in Expand(o, groups) && u in approvers && u !in authors)
    && (o in admins ==> o in approvers)
  }

  lemma AnsweredApproves(owners: seq<Login>, groups: Groups, approvers: set<Login>, authors: set<Login>,
                         admins: seq<Login>)
    requires owners != []
    requires forall o :: o in owners ==> Answered(o, groups, approvers, authors, admins)
    ensures HasApprover(owners, groups, approvers - authors)
  {
    var o := owners[0];
    assert Answered(o, groups, approvers, authors, admins);
    var u :| u in Expand(o, groups) && u in approvers && u !in authors;
    assert u in approvers - authors;
  }

  /** A resource nobody can be asked about is never approved by codeowners. */
  lemma UnaskableNeverApproved(own: Ownership, groups: Groups, admins: seq<Login>, approvers: set<Login>)
    requires !Askable(own, admins)
    ensures !Approves(own, groups, approvers)
  {
  }

  /** If the owners listed for one resource answered, codeowners approve it or an admin has approved. */
  lemma AskedSuffices(own: Ownership, groups: Groups, approvers: set<Login>, authors: set<Login>, admins: seq<Login>)
    requires own.Valid() && Askable(own, admins)
    requires forall o :: IsNeeded(own, admins, o) ==> Answered(o, groups, approvers, authors, admins)
    ensures Approves(own, groups, approvers - authors) || exists a :: a in admins && a in approvers
  {
    if own.fileOwners != [] {
      AnsweredApproves(own.fileOwners, groups, approvers, authors, admins);
    } else if own.moduleOwners != [] {
      AnsweredApproves(own.moduleOwners, groups, approvers, authors, admins);
    } else if f :| f in own.nodeFiles && own.OwnersOf(f) == [] {
      assert admins != [];
      assert IsNeeded(own, admins, admins[0]);
    } else {
      forall f | f in own.nodeFiles ensures HasApprover(own.OwnersOf(f), groups, approvers - authors) {
        forall o | o in own.OwnersOf(f) ensures Answered(o, groups, approvers, authors, admins) {
          assert IsNeeded(own, admins, o);
        }
        AnsweredApproves(own.OwnersOf(f), groups, approvers, authors, admins);
      }
    }
  }

  /** Once everybody listed has answered, the noop is approved exactly when an
      admin approved, or authors are known and each resource had somebody to ask. */
  lemma ListedSuffice(owns: set<Ownership>, groups: Groups, before: set<Login>, after: set<Login>,
                      authors: set<Login>, admins: seq<Login>)
    requires forall own :: own in owns ==> own.Valid()
    requires before <= after
    requires forall o :: IsListed(owns, groups, before, authors, admins, o) ==>
                           Answered(o, groups, after, authors, admins)
    ensures Verdict(owns, groups, after, authors, admins) != NotApproved
        <==> (exists a :: a in admins && a in after)
             || (authors != {} && forall own :: own in owns ==> Askable(own, admins))
  {
    if own :| own in owns && !Askable(own, admins) {
      UnaskableNeverApproved(own, groups, admins, after - authors);
    } else if authors != {} && !(exists a :: a in admins && a in after) {
      forall own | own in owns ensures Approves(own, groups, after - authors) {
        if Approves(own, groups, before - authors) {
          ApprovesMonotone(own, groups, before - authors, after - authors);
        } else {
          forall o | IsNeeded(own, admins, o) ensures Answered(o, groups, after, authors, admins) {
            assert IsListed(owns, groups, before, authors, admins, o);
          }
          AskedSuffices(own, groups, after, authors, admins);
        }
      }
    }
  }
}
