/**
  Navigation over one frozen report (`report_task_service.py`): which tool shows which objects, under
  which origin, and which origins the consuming tools accept.
*/
module Navigation {
  import opened Wrappers
  import opened Arguments
  import opened Sublists
  import R = ReportTaskRefs

  datatype Member = Member(postId: string, evidenceIds: seq<string>)

  /** A post with the decision and the risk level of its audit finding. */
  datatype PostData = PostData(revision: string, decision: string, riskLevel: string)

  datatype EvidenceData = EvidenceData(parentPost: string, parentRevision: string, kind: string)

  /**
    The report a service is bound to, through the lookups of its repository: a fixture, a published
    report, or a published report that a unified service (`PassReportToolService`) shows as post cards.
  */
  datatype Report = Report(published: bool, unified: bool, reportId: string, snapshotId: string,
                           caseIds: seq<string>, cases: map<string, seq<string>>, caseOfPost: map<string, string>,
                           posts: map<string, PostData>, postOrder: seq<string>, revisionIds: set<string>,
                           findingOrder: seq<string>, findings: map<string, seq<Member>>, standalone: seq<string>,
                           evidence: map<string, EvidenceData>, evidenceIds: set<string>,
                           evidenceByPost: map<string, seq<string>>, riskComments: map<string, seq<string>>)

  /** `is_deterministic_risk_finding`. */
  predicate IsRisk(p: PostData) {
    p.decision in {"review", "reject"} && p.riskLevel in {"low", "medium", "high"}
  }

  ghost predicate PostsOk(rep: Report) {
    && rep.posts.Keys == (set p <- rep.postOrder)
    && forall p <- rep.posts :: rep.posts[p].revision in rep.revisionIds
  }

  ghost predicate CasesOk(rep: Report) {
    forall c <- rep.caseIds :: c in rep.cases &&
      forall p <- rep.cases[c] :: p in rep.posts && p in rep.caseOfPost && rep.caseOfPost[p] == c
  }

  ghost predicate MemberOk(rep: Report, m: Member) {
    m.postId in rep.posts && forall e <- m.evidenceIds :: e in rep.evidence && rep.evidence[e].parentPost == m.postId
  }

  ghost predicate FindingsOk(rep: Report) {
    && (forall f <- rep.findingOrder :: f in rep.findings)
    && (forall f <- rep.findings :: DistinctPosts(rep.findings[f]) && forall m <- rep.findings[f] :: MemberOk(rep, m))
  }

  ghost predicate DistinctPosts(members: seq<Member>) {
    forall i, j | 0 <= i < j < |members| :: members[i].postId != members[j].postId
  }

  ghost predicate EvidenceOk(rep: Report) {
    && (forall e <- rep.evidence :: e in rep.evidenceIds && rep.evidence[e].parentPost in rep.posts
          && rep.evidence[e].parentRevision == rep.posts[rep.evidence[e].parentPost].revision)
    && (forall p <- rep.evidenceByPost :: forall e <- rep.evidenceByPost[p] :: e in rep.evidence && rep.evidence[e].parentPost == p)
  }

  /** What the loader and the graph validation guarantee of every report that is served. */
  ghost predicate WellFormed(rep: Report) {
    PostsOk(rep) && CasesOk(rep) && FindingsOk(rep) && EvidenceOk(rep) && forall p <- rep.standalone :: p in rep.posts
  }

  // ---- the checks of the consuming tools ----

  function FindMember(members: seq<Member>, postId: string): (m: Option<Member>)
    ensures m.Some? ==> m.value in members && m.value.postId == postId
    ensures m.None? ==> forall x <- members :: x.postId != postId
  {
    if members == [] then None
    else if members[0].postId == postId then Some(members[0])
    else FindMember(members[1..], postId)
  }

  /** `finding_membership`; an unknown finding or a post outside it is a lookup error. */
  function Membership(rep: Report, findingId: string, postId: string): Option<Member> {
    if findingId in rep.findings then FindMember(rep.findings[findingId], postId) else None
  }

  predicate FromParent(origin: R.Origin, tool: string, parent: string) {
    origin.sourceTool == tool && origin.parentId == Some(parent)
  }

  /** `_validate_category_record`. */
  function ValidateCategory(rep: Report, r: R.Record): Result<()> {
    if r.objectId !in rep.cases then Err("scope_object_missing")
    else if r.objectId !in rep.caseIds then Err("cross_scope_ref")
    else if !exists o | o in r.origins :: FromParent(o, "read_report", rep.reportId) then Err("wrong_parent_ref")
    else Ok(())
  }

  /** `_validate_finding_record`. */
  function ValidateFinding(rep: Report, r: R.Record): Result<()> {
    if r.objectId !in rep.findings then Err("scope_object_missing")
    else if !exists o | o in r.origins :: FromParent(o, "read_report", rep.reportId) then Err("wrong_parent_ref")
    else Ok(())
  }

  /** The loop over the origins of a post: it ends at the first valid one, or with a lookup error. */
  function PostOrigins(rep: Report, postId: string, origins: seq<R.Origin>): Result<bool> {
    if origins == [] then Ok(false)
    else
      var o := origins[0];
      var here: Result<bool> :=
        if o.sourceTool == "list_category_posts" then
          if postId in rep.caseOfPost then Ok(o.parentId == Some(rep.caseOfPost[postId])) else Err("scope_object_missing")
        else if o.sourceTool == "list_finding_posts" && rep.published then
          Ok(o.parentId.Some? && Membership(rep, o.parentId.value, postId).Some?)
        else if o.sourceTool == "read_report" && rep.published then
          Ok(o.parentId == Some(rep.reportId) && postId in rep.standalone)
        else if o.sourceTool == "search_posts" then
          Ok(o.parentId == Some(rep.snapshotId) && postId in rep.posts && IsRisk(rep.posts[postId]))
        else Ok(false);
      if here.Err? || here.value then here else PostOrigins(rep, postId, origins[1..])
  }

  const CARD_TOOLS: set<string> := {"read_report", "list_report_posts", "search_posts", "read_account_occurrence"}

  /** The origin of a post card (`_post_cards`). */
  predicate FromCard(rep: Report, o: R.Origin) {
    o.sourceTool in CARD_TOOLS && o.parentId == Some(rep.snapshotId)
  }

  /** `_validate_post_record`, of the report services and of the unified service. */
  function ValidatePost(rep: Report, r: R.Record): Result<()> {
    if r.objectId !in rep.posts then Err("scope_object_missing")
    else if r.objectId !in rep.postOrder || rep.posts[r.objectId].revision !in rep.revisionIds then Err("stale_revision_ref")
    else
      var valid := if rep.unified then Ok(exists o | o in r.origins :: FromCard(rep, o)) else PostOrigins(rep, r.objectId, r.origins);
      if valid.Err? then Err(valid.code) else if valid.value then Ok(()) else Err("invalid_ref_source")
  }

  predicate FromMembership(rep: Report, o: R.Origin, postId: string, evidenceId: string) {
    && o.sourceTool == "list_finding_posts" && o.parentId.Some?
    && Membership(rep, o.parentId.value, postId).Some?
    && evidenceId in Membership(rep, o.parentId.value, postId).value.evidenceIds
  }

  /** `_validate_evidence_record`. */
  function ValidateEvidence(rep: Report, r: R.Record): Result<()> {
    if r.objectId !in rep.evidence then Err("scope_object_missing")
    else
      var item := rep.evidence[r.objectId];
      if r.objectId !in rep.evidenceIds then Err("cross_scope_ref")
      else if item.parentPost !in rep.posts then Err("scope_object_missing")
      else if item.parentRevision != rep.posts[item.parentPost].revision then Err("stale_revision_ref")
      else if (exists o | o in r.origins :: FromParent(o, "list_evidence", item.parentPost))
              || (rep.published && exists o | o in r.origins :: FromMembership(rep, o, item.parentPost, r.objectId))
      then Ok(())
      else Err("wrong_parent_ref")
  }

  predicate ShownUnder(o: R.Origin, postId: string) {
    o == R.Origin(Some(postId), "list_post_risk_comments", "post_risk_comment_directory", "complete_text_record")
  }

  /** `validate_comment_reference`, for an already validated parent post. */
  function ValidateComment(rep: Report, r: R.Record, postId: string): Result<()> {
    if !exists o | o in r.origins :: ShownUnder(o, postId) then Err("wrong_parent_ref")
    else if postId !in rep.riskComments || r.objectId !in rep.riskComments[postId] then Err("cross_scope_ref")
    else Ok(())
  }

  // ---- what a tool may show ----

  /** The origin under which a tool shows an object is one that its consumers accept for that object. */
  ghost predicate Legit(rep: Report, kind: R.Kind, objectId: string, o: R.Origin) {
    match kind
    case Category => objectId in rep.caseIds && FromParent(o, "read_report", rep.reportId)
    case Finding => objectId in rep.findings && FromParent(o, "read_report", rep.reportId)
    case Post =>
      objectId in rep.posts &&
      if rep.unified then FromCard(rep, o)
      else if o.sourceTool == "list_category_posts" then objectId in rep.caseOfPost && o.parentId == Some(rep.caseOfPost[objectId])
      else if o.sourceTool == "list_finding_posts"
      then rep.published && o.parentId.Some? && Membership(rep, o.parentId.value, objectId).Some?
      else if o.sourceTool == "read_report"
      then rep.published && o.parentId == Some(rep.reportId) && objectId in rep.standalone
      else o.sourceTool == "search_posts" && o.parentId == Some(rep.snapshotId) && IsRisk(rep.posts[objectId])
    case Evidence =>
      objectId in rep.evidence &&
      (FromParent(o, "list_evidence", rep.evidence[objectId].parentPost)
       || (rep.published && FromMembership(rep, o, rep.evidence[objectId].parentPost, objectId)))
    case Comment =>
      o.parentId.Some? && ShownUnder(o, o.parentId.value)
      && o.parentId.value in rep.riskComments && objectId in rep.riskComments[o.parentId.value]
  }

  ghost predicate LegitRecord(rep: Report, r: R.Record) {
    r.origins != [] && forall o <- r.origins :: Legit(rep, r.kind, r.objectId, o)
  }

  lemma {:induction false} LegitPostOrigins(rep: Report, postId: string, origins: seq<R.Origin>)
    requires origins != [] && !rep.unified && Legit(rep, R.Post, postId, origins[0])
    ensures PostOrigins(rep, postId, origins) == Ok(true)
  {
  }

  /** A record whose origins are all legitimate passes the check of every tool that consumes its kind. */
  lemma LegitIsAccepted(rep: Report, r: R.Record)
    requires WellFormed(rep) && LegitRecord(rep, r)
    ensures r.kind.Category? ==> ValidateCategory(rep, r).Ok?
    ensures r.kind.Finding? ==> ValidateFinding(rep, r).Ok?
    ensures r.kind.Post? ==> ValidatePost(rep, r).Ok?
    ensures r.kind.Evidence? ==> ValidateEvidence(rep, r).Ok?
    ensures r.kind.Comment? ==> exists p :: p in rep.riskComments && ValidateComment(rep, r, p).Ok?
  {
    hide FindMember, Membership, PostOrigins, FindingsOk;
    var o := r.origins[0];
    assert o in r.origins && Legit(rep, r.kind, r.objectId, o);
    match r.kind
    case Post =>
      if !rep.unified {
        LegitPostOrigins(rep, r.objectId, r.origins);
      }
    case Comment => assert ValidateComment(rep, r, o.parentId.value).Ok?;
    case Category =>
    case Finding =>
    case Evidence =>
  }

  // ---- the tools, up to what they show ----

  datatype Item = Item(kind: R.Kind, objectId: string, origin: R.Origin)

  /** The filters of a search; a missing one lets everything pass. */
  datatype Filters = Filters(decision: Option<string>, riskLevel: Option<string>)

  predicate Passes(p: PostData, f: Filters) {
    (f.decision.Some? ==> p.decision == f.decision.value) && (f.riskLevel.Some? ==> p.riskLevel == f.riskLevel.value)
  }

  datatype Call =
    | ReadReport
    | ListFindingPosts(findingRef: string, limit: nat)
    | ListCategoryPosts(categoryRef: string, limit: nat)
    | SearchPosts(filters: Filters, offset: nat, limit: nat)
    | ShowPosts(tool: string, filters: Filters, offset: nat, limit: nat)
    | ShowAccountPost(postId: string)
    | ListEvidence(postRef: string, types: set<string>, limit: nat)
    | ListRiskComments(postRef: string, offset: nat, limit: nat)

  function ReportItems(rep: Report): seq<Item> {
    if rep.unified then []
    else if rep.published then
      seq(|rep.findingOrder|, i requires 0 <= i < |rep.findingOrder| =>
        Item(R.Finding, rep.findingOrder[i], R.Origin(Some(rep.reportId), "read_report", "investigation_finding_previews", "preview")))
      + seq(|rep.standalone|, i requires 0 <= i < |rep.standalone| =>
        Item(R.Post, rep.standalone[i], R.Origin(Some(rep.reportId), "read_report", "standalone_risk_post_previews", "preview")))
    else
      seq(|rep.caseIds|, i requires 0 <= i < |rep.caseIds| =>
        Item(R.Category, rep.caseIds[i], R.Origin(Some(rep.reportId), "read_report", "report_overview", "preview")))
  }

  function MemberItems(findingId: string, m: Member): seq<Item> {
    [Item(R.Post, m.postId, R.Origin(Some(findingId), "list_finding_posts", "investigation_finding_post_memberships", "membership_preview"))]
    + seq(|m.evidenceIds|, i requires 0 <= i < |m.evidenceIds| =>
        Item(R.Evidence, m.evidenceIds[i], R.Origin(Some(findingId), "list_finding_posts", "membership_evidence_subset", "preview")))
  }

  function MembersItems(findingId: string, members: seq<Member>): seq<Item> {
    if members == [] then [] else MemberItems(findingId, members[0]) + MembersItems(findingId, members[1..])
  }

  function PostItems(ids: seq<string>, origin: R.Origin): seq<Item> {
    seq(|ids|, i requires 0 <= i < |ids| => Item(R.Post, ids[i], origin))
  }

  function CardOrigin(rep: Report, tool: string): R.Origin {
    R.Origin(Some(rep.snapshotId), tool, "snapshot_post_preview", "preview")
  }

  function EvidenceItems(ids: seq<string>, postId: string): seq<Item> {
    seq(|ids|, i requires 0 <= i < |ids| =>
      Item(R.Evidence, ids[i], R.Origin(Some(postId), "list_evidence", "evidence_candidate_directory", "preview")))
  }

  function CommentItems(ids: seq<string>, postId: string): seq<Item> {
    seq(|ids|, i requires 0 <= i < |ids| =>
      Item(R.Comment, ids[i], R.Origin(Some(postId), "list_post_risk_comments", "post_risk_comment_directory", "complete_text_record")))
  }

  function Take<T>(s: seq<T>, n: nat): seq<T> {
    s[..Min(n, |s|)]
  }

  function Slice<T>(s: seq<T>, offset: nat, n: nat): seq<T> {
    if offset <= |s| then s[offset..Min(offset + n, |s|)] else []
  }

  function PassesUnder(rep: Report, f: Filters): string -> bool {
    p => p in rep.posts && Passes(rep.posts[p], f)
  }

  function IsRiskUnder(rep: Report, f: Filters): string -> bool {
    p => p in rep.posts && IsRisk(rep.posts[p]) && Passes(rep.posts[p], f)
  }

  /** The posts of the frozen order that pass the filters. */
  function FilteredPosts(rep: Report, f: Filters): seq<string> {
    Filter(rep.postOrder, PassesUnder(rep, f))
  }

  /** `risk_posts` under the filters of `search_posts`. */
  function RiskCandidates(rep: Report, f: Filters): seq<string> {
    Filter(rep.postOrder, IsRiskUnder(rep, f))
  }

  function OfTypes(rep: Report, types: set<string>): string -> bool {
    e => types == {} || (e in rep.evidence && rep.evidence[e].kind in types)
  }

  function EvidenceOfTypes(rep: Report, postId: string, types: set<string>): seq<string> {
    Filter(if postId in rep.evidenceByPost then rep.evidenceByPost[postId] else [], OfTypes(rep, types))
  }

  /** A tool resolves and checks its reference, then lists what it will show, in the order in which it is staged. */
  function ItemsOf(rep: Report, reg: R.Registry, sessionId: string, call: Call): Result<seq<Item>> {
    match call
    case ReadReport => Ok(ReportItems(rep))
    case ListFindingPosts(ref, limit) =>
      var r := R.Resolve(reg, sessionId, ref, Some(R.Finding));
      if !rep.published || rep.unified then Err("tool_unavailable_for_report_task_scope")
      else if r.Err? then Err(r.code)
      else if ValidateFinding(rep, r.value).Err? then Err(ValidateFinding(rep, r.value).code)
      else Ok(MembersItems(r.value.objectId, Take(rep.findings[r.value.objectId], limit)))
    case ListCategoryPosts(ref, limit) =>
      var r := R.Resolve(reg, sessionId, ref, Some(R.Category));
      if rep.published || rep.unified then Err("tool_unavailable_for_report_task_scope")
      else if r.Err? then Err(r.code)
      else if ValidateCategory(rep, r.value).Err? then Err(ValidateCategory(rep, r.value).code)
      else Ok(PostItems(Take(rep.cases[r.value.objectId], limit),
                        R.Origin(Some(r.value.objectId), "list_category_posts", "report_category_post_directory", "preview")))
    case SearchPosts(filters, offset, limit) =>
      if rep.unified then Err("tool_unavailable_for_report_task_scope")
      else Ok(PostItems(Slice(RiskCandidates(rep, filters), offset, limit),
                        R.Origin(Some(rep.snapshotId), "search_posts", "risk_post_candidate_directory", "risk_preview")))
    case ShowPosts(tool, filters, offset, limit) =>
      if !rep.unified || tool !in CARD_TOOLS then Err("tool_unavailable_for_report_task_scope")
      else Ok(PostItems(Slice(FilteredPosts(rep, filters), offset, limit), CardOrigin(rep, tool)))
    case ShowAccountPost(postId) =>
      if !rep.unified then Err("tool_unavailable_for_report_task_scope")
      else if postId !in rep.posts then Err("scope_object_missing")
      else Ok(PostItems([postId], CardOrigin(rep, "read_account_occurrence")))
    case ListEvidence(ref, types, limit) =>
      var r := R.Resolve(reg, sessionId, ref, Some(R.Post));
      if r.Err? then Err(r.code)
      else if ValidatePost(rep, r.value).Err? then Err(ValidatePost(rep, r.value).code)
      else Ok(EvidenceItems(Take(EvidenceOfTypes(rep, r.value.objectId, types), limit), r.value.objectId))
    case ListRiskComments(ref, offset, limit) =>
      var r := R.Resolve(reg, sessionId, ref, Some(R.Post));
      if !rep.published || rep.unified then Err("tool_unavailable_for_report_task_scope")
      else if r.Err? then Err(r.code)
      else if ValidatePost(rep, r.value).Err? then Err(ValidatePost(rep, r.value).code)
      else
        var all := if r.value.objectId in rep.riskComments then rep.riskComments[r.value.objectId] else [];
        Ok(CommentItems(Slice(all, offset, limit), r.value.objectId))
  }

  function ParentKey(scope: R.Scope, postId: string): R.ObjectKey {
    R.ObjectKey(scope.sessionId, scope.generation, R.Post, postId)
  }

  function ParentOf(rep: Report, evidenceId: string): string {
    if evidenceId in rep.evidence then rep.evidence[evidenceId].parentPost else ""
  }

  ghost predicate LegitItems(rep: Report, items: seq<Item>) {
    forall x <- items :: Legit(rep, x.kind, x.objectId, x.origin)
  }

  /** Every evidence in the list comes after its parent post, or that post is already indexed for the scope. */
  ghost predicate ParentsFirst(rep: Report, indexed: map<R.ObjectKey, string>, scope: R.Scope, items: seq<Item>) {
    forall i | 0 <= i < |items| && items[i].kind.Evidence? ::
      || ParentKey(scope, ParentOf(rep, items[i].objectId)) in indexed
      || exists j :: 0 <= j < i && items[j].kind.Post? && items[j].objectId == ParentOf(rep, items[i].objectId)
  }

  lemma FoundMemberIsTheMember(members: seq<Member>, m: Member)
    requires DistinctPosts(members) && m in members
    ensures FindMember(members, m.postId) == Some(m)
  {
    var found := FindMember(members, m.postId).value;
    var i :| 0 <= i < |members| && members[i] == m;
    var j :| 0 <= j < |members| && members[j] == found;
    assert forall a, b | 0 <= a < |members| && 0 <= b < |members| && a != b :: members[a].postId != members[b].postId;
  }

  lemma MemberItemsAreLegit(rep: Report, findingId: string, m: Member)
    requires WellFormed(rep) && rep.published && !rep.unified && findingId in rep.findings && m in rep.findings[findingId]
    ensures LegitItems(rep, MemberItems(findingId, m))
    ensures forall indexed, scope :: ParentsFirst(rep, indexed, scope, MemberItems(findingId, m))
  {
    hide CasesOk, PostsOk, EvidenceOk, FindMember;
    assert DistinctPosts(rep.findings[findingId]) && MemberOk(rep, m);
    FoundMemberIsTheMember(rep.findings[findingId], m);
    var items := MemberItems(findingId, m);
    forall x | x in items ensures Legit(rep, x.kind, x.objectId, x.origin) {
      var i :| 0 <= i < |items| && items[i] == x;
      if i > 0 {
        assert x.objectId == m.evidenceIds[i - 1] && m.evidenceIds[i - 1] in m.evidenceIds;
      }
    }
    forall indexed: map<R.ObjectKey, string>, scope: R.Scope ensures ParentsFirst(rep, indexed, scope, items) {
      forall i | 0 <= i < |items| && items[i].kind.Evidence?
        ensures exists j :: 0 <= j < i && items[j].kind.Post? && items[j].objectId == ParentOf(rep, items[i].objectId)
      {
        assert m.evidenceIds[i - 1] in m.evidenceIds;
        assert items[0].kind.Post? && items[0].objectId == ParentOf(rep, items[i].objectId);
      }
    }
  }

  lemma ParentsFirstConcat(rep: Report, indexed: map<R.ObjectKey, string>, scope: R.Scope, a: seq<Item>, b: seq<Item>)
    requires ParentsFirst(rep, indexed, scope, a) && ParentsFirst(rep, indexed, scope, b)
    ensures ParentsFirst(rep, indexed, scope, a + b)
  {
    var s := a + b;
    forall i | 0 <= i < |s| && s[i].kind.Evidence? && ParentKey(scope, ParentOf(rep, s[i].objectId)) !in indexed
      ensures exists j :: 0 <= j < i && s[j].kind.Post? && s[j].objectId == ParentOf(rep, s[i].objectId)
    {
      if i < |a| {
        var j :| 0 <= j < i && a[j].kind.Post? && a[j].objectId == ParentOf(rep, a[i].objectId);
        assert s[j] == a[j];
      } else {
        var j :| 0 <= j < i - |a| && b[j].kind.Post? && b[j].objectId == ParentOf(rep, b[i - |a|].objectId);
        assert s[|a| + j] == b[j];
      }
    }
  }

  lemma {:induction false} MembersItemsAreLegit(rep: Report, findingId: string, members: seq<Member>)
    requires WellFormed(rep) && rep.published && !rep.unified && findingId in rep.findings && forall m <- members :: m in rep.findings[findingId]
    ensures LegitItems(rep, MembersItems(findingId, members))
    ensures forall indexed, scope :: ParentsFirst(rep, indexed, scope, MembersItems(findingId, members))
  {
    hide WellFormed, Legit, MemberItems;
    if members != [] {
      assert members[0] in members && forall m <- members[1..] :: m in members;
      MemberItemsAreLegit(rep, findingId, members[0]);
      MembersItemsAreLegit(rep, findingId, members[1..]);
      forall indexed: map<R.ObjectKey, string>, scope: R.Scope
        ensures ParentsFirst(rep, indexed, scope, MembersItems(findingId, members))
      {
        ParentsFirstConcat(rep, indexed, scope, MemberItems(findingId, members[0]), MembersItems(findingId, members[1..]));
      }
    }
  }

  ghost predicate PostsIndexed(reg: R.Registry) {
    forall t <- reg.records | reg.records[t].kind.Post? :: R.KeyOf(reg.records[t]) in reg.byObject
  }

  lemma ReportItemsAreLegit(rep: Report, indexed: map<R.ObjectKey, string>, scope: R.Scope)
    requires WellFormed(rep)
    ensures LegitItems(rep, ReportItems(rep)) && ParentsFirst(rep, indexed, scope, ReportItems(rep))
  {
    hide FindMember;
    assert forall i | 0 <= i < |rep.findingOrder| :: rep.findingOrder[i] in rep.findingOrder;
    assert forall i | 0 <= i < |rep.standalone| :: rep.standalone[i] in rep.standalone;
    assert forall i | 0 <= i < |rep.caseIds| :: rep.caseIds[i] in rep.caseIds;
  }

  lemma PostItemsAreLegit(rep: Report, indexed: map<R.ObjectKey, string>, scope: R.Scope, ids: seq<string>, origin: R.Origin)
    requires forall p <- ids :: Legit(rep, R.Post, p, origin)
    ensures LegitItems(rep, PostItems(ids, origin)) && ParentsFirst(rep, indexed, scope, PostItems(ids, origin))
  {
    hide Legit;
    assert forall i | 0 <= i < |ids| :: ids[i] in ids;
  }

  lemma CommentItemsAreLegit(rep: Report, indexed: map<R.ObjectKey, string>, scope: R.Scope, ids: seq<string>, postId: string)
    requires postId in rep.riskComments && forall c <- ids :: c in rep.riskComments[postId]
    ensures LegitItems(rep, CommentItems(ids, postId)) && ParentsFirst(rep, indexed, scope, CommentItems(ids, postId))
  {
    hide FindMember;
    assert forall i | 0 <= i < |ids| :: ids[i] in ids;
  }

  lemma EvidenceItemsAreLegit(rep: Report, indexed: map<R.ObjectKey, string>, scope: R.Scope, ids: seq<string>, postId: string)
    requires ParentKey(scope, postId) in indexed
    requires forall e <- ids :: e in rep.evidence && rep.evidence[e].parentPost == postId
    ensures LegitItems(rep, EvidenceItems(ids, postId)) && ParentsFirst(rep, indexed, scope, EvidenceItems(ids, postId))
  {
    hide FindMember;
    assert forall i | 0 <= i < |ids| :: ids[i] in ids;
  }

  lemma CandidatesAreRisk(rep: Report, f: Filters)
    ensures forall p <- RiskCandidates(rep, f) :: p in rep.posts && IsRisk(rep.posts[p])
  {
    FilterHas(rep.postOrder, IsRiskUnder(rep, f));
  }

  lemma FilteredPostsArePosts(rep: Report, f: Filters)
    ensures forall p <- FilteredPosts(rep, f) :: p in rep.posts
  {
    FilterHas(rep.postOrder, PassesUnder(rep, f));
  }

  lemma EvidenceOfTypesBelongs(rep: Report, postId: string, types: set<string>)
    requires EvidenceOk(rep)
    ensures forall e <- EvidenceOfTypes(rep, postId, types) :: e in rep.evidence && rep.evidence[e].parentPost == postId
  {
    FilterHas(if postId in rep.evidenceByPost then rep.evidenceByPost[postId] else [], OfTypes(rep, types));
  }

  /** Whatever a tool lists, it lists under an origin that its consumers accept, parents first. */
  lemma ItemsAreLegit(rep: Report, reg: R.Registry, sessionId: string, call: Call)
    requires WellFormed(rep) && R.Valid(reg) && PostsIndexed(reg) && sessionId in reg.scopes
    requires ItemsOf(rep, reg, sessionId, call).Ok?
    ensures
      var items := ItemsOf(rep, reg, sessionId, call).value;
      LegitItems(rep, items) && ParentsFirst(rep, reg.byObject, reg.scopes[sessionId], items)
  {
    hide Filter, RiskCandidates, FilteredPosts, EvidenceOfTypes, FindMember, R.Resolve, PostOrigins, R.Valid, LegitItems, ParentsFirst, FindingsOk, PostItems, EvidenceItems, CommentItems, MembersItems, ReportItems;
    var indexed, scope := reg.byObject, reg.scopes[sessionId];
    match call
    case ReadReport => ReportItemsAreLegit(rep, indexed, scope);
    case ListFindingPosts(ref, limit) =>
      var f := R.Resolve(reg, sessionId, ref, Some(R.Finding)).value.objectId;
      MembersItemsAreLegit(rep, f, Take(rep.findings[f], limit));
    case ListCategoryPosts(ref, limit) =>
      var c := R.Resolve(reg, sessionId, ref, Some(R.Category)).value.objectId;
      PostItemsAreLegit(rep, indexed, scope, Take(rep.cases[c], limit),
                        R.Origin(Some(c), "list_category_posts", "report_category_post_directory", "preview"));
    case SearchPosts(filters, offset, limit) =>
      CandidatesAreRisk(rep, filters);
      PostItemsAreLegit(rep, indexed, scope, Slice(RiskCandidates(rep, filters), offset, limit),
                        R.Origin(Some(rep.snapshotId), "search_posts", "risk_post_candidate_directory", "risk_preview"));
    case ShowPosts(tool, filters, offset, limit) =>
      FilteredPostsArePosts(rep, filters);
      PostItemsAreLegit(rep, indexed, scope, Slice(FilteredPosts(rep, filters), offset, limit), CardOrigin(rep, tool));
    case ShowAccountPost(postId) =>
      PostItemsAreLegit(rep, indexed, scope, [postId], CardOrigin(rep, "read_account_occurrence"));
    case ListEvidence(ref, types, limit) =>
      var r := R.Resolve(reg, sessionId, ref, Some(R.Post)).value;
      ResolvedKey(reg, sessionId, ref, r);
      EvidenceOfTypesBelongs(rep, r.objectId, types);
      EvidenceItemsAreLegit(rep, indexed, scope, Take(EvidenceOfTypes(rep, r.objectId, types), limit), r.objectId);
    case ListRiskComments(ref, offset, limit) =>
      var p := R.Resolve(reg, sessionId, ref, Some(R.Post)).value.objectId;
      if p in rep.riskComments {
        CommentItemsAreLegit(rep, indexed, scope, Slice(rep.riskComments[p], offset, limit), p);
      } else {
        NoItemsAreLegit(rep, indexed, scope, p);
      }
  }

  lemma NoItemsAreLegit(rep: Report, indexed: map<R.ObjectKey, string>, scope: R.Scope, postId: string)
    ensures LegitItems(rep, CommentItems([], postId)) && ParentsFirst(rep, indexed, scope, CommentItems([], postId))
  {
  }

  lemma ResolvedKey(reg: R.Registry, sessionId: string, token: string, r: R.Record)
    requires R.Valid(reg) && R.Resolve(reg, sessionId, token, Some(R.Post)) == Ok(r)
    ensures token in reg.records && reg.records[token] == r
    ensures R.KeyOf(r) == ParentKey(reg.scopes[sessionId], r.objectId)
  {
    R.ResolvedIsCurrent(reg, sessionId, token, Some(R.Post));
  }
}
