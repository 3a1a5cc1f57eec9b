/**
  What the tools of a report list and what they accept, spelled out: the objects of every call in their
  order, and the records that pass the checks of their consumers.
*/
module NavigationListings {
  import opened Wrappers
  import opened Arguments
  import opened Sublists
  import opened Navigation
  import R = ReportTaskRefs

  /** The stretch of a list at this offset, at most that long. */
  ghost predicate IsStretch<T>(part: seq<T>, whole: seq<T>, offset: nat, limit: nat) {
    && |part| == (if |whole| <= offset then 0 else Min(limit, |whole| - offset))
    && forall i | 0 <= i < |part| :: part[i] == whole[offset + i]
  }

  function IdsIn(items: seq<Item>): seq<string> {
    seq(|items|, i requires 0 <= i < |items| => items[i].objectId)
  }

  function OfKind(kind: R.Kind): Item -> bool {
    (x: Item) => x.kind == kind
  }

  predicate AllOf(items: seq<Item>, kind: R.Kind) {
    forall i | 0 <= i < |items| :: items[i].kind == kind
  }

  /** The post has the decision and the level that are asked for. */
  predicate PostFits(rep: Report, p: string, filters: Filters) {
    p in rep.posts
    && (filters.decision == None || filters.decision == Some(rep.posts[p].decision))
    && (filters.riskLevel == None || filters.riskLevel == Some(rep.posts[p].riskLevel))
  }

  /** A post that was sent to review or rejected, for a low, medium or high risk. */
  predicate RiskyPost(rep: Report, p: string) {
    p in rep.posts
    && (rep.posts[p].decision == "review" || rep.posts[p].decision == "reject")
    && (rep.posts[p].riskLevel == "low" || rep.posts[p].riskLevel == "medium" || rep.posts[p].riskLevel == "high")
  }

  function Fitting(rep: Report, filters: Filters): string -> bool {
    p => PostFits(rep, p, filters)
  }

  function RiskyAndFitting(rep: Report, filters: Filters): string -> bool {
    p => RiskyPost(rep, p) && PostFits(rep, p, filters)
  }

  predicate Typed(rep: Report, e: string, types: set<string>) {
    |types| == 0 || exists t <- types :: e in rep.evidence && rep.evidence[e].kind == t
  }

  function TypedBy(rep: Report, types: set<string>): string -> bool {
    e => Typed(rep, e, types)
  }

  function Listed(lists: map<string, seq<string>>, id: string): seq<string> {
    if id in lists then lists[id] else []
  }

  function MemberPosts(members: seq<Member>): seq<string> {
    seq(|members|, i requires 0 <= i < |members| => members[i].postId)
  }

  function MemberEvidence(members: seq<Member>): seq<string> {
    if members == [] then [] else members[0].evidenceIds + MemberEvidence(members[1..])
  }

  /** What the call shows, given the object that its reference stands for. */
  ghost predicate Shows(rep: Report, call: Call, objectId: string, items: seq<Item>) {
    match call
    case ReadReport =>
      if rep.unified then items == []
      else if rep.published then
        && IdsIn(Filter(items, OfKind(R.Finding))) == rep.findingOrder
        && IdsIn(Filter(items, OfKind(R.Post))) == rep.standalone
        && |items| == |rep.findingOrder| + |rep.standalone|
      else AllOf(items, R.Category) && IdsIn(items) == rep.caseIds
    case ListFindingPosts(_, limit) =>
      exists members | objectId in rep.findings && IsStretch(members, rep.findings[objectId], 0, limit) ::
        && IdsIn(Filter(items, OfKind(R.Post))) == MemberPosts(members)
        && IdsIn(Filter(items, OfKind(R.Evidence))) == MemberEvidence(members)
        && |items| == |members| + |MemberEvidence(members)|
    case ListCategoryPosts(_, limit) => AllOf(items, R.Post) && IsStretch(IdsIn(items), Listed(rep.cases, objectId), 0, limit)
    case SearchPosts(filters, offset, limit) =>
      AllOf(items, R.Post) && IsStretch(IdsIn(items), Filter(rep.postOrder, RiskyAndFitting(rep, filters)), offset, limit)
    case ShowPosts(_, filters, offset, limit) =>
      AllOf(items, R.Post) && IsStretch(IdsIn(items), Filter(rep.postOrder, Fitting(rep, filters)), offset, limit)
    case ShowAccountPost(postId) => AllOf(items, R.Post) && IdsIn(items) == [postId]
    case ListEvidence(_, types, limit) =>
      AllOf(items, R.Evidence)
      && IsStretch(IdsIn(items), Filter(Listed(rep.evidenceByPost, objectId), TypedBy(rep, types)), 0, limit)
    case ListRiskComments(_, offset, limit) =>
      AllOf(items, R.Comment) && IsStretch(IdsIn(items), Listed(rep.riskComments, objectId), offset, limit)
  }

  /** Which reports have the tool. */
  predicate Available(rep: Report, call: Call) {
    match call
    case ReadReport => true
    case ListFindingPosts(_, _) => rep.published && !rep.unified
    case ListCategoryPosts(_, _) => !rep.published && !rep.unified
    case SearchPosts(_, _, _) => !rep.unified
    case ShowPosts(tool, _, _, _) =>
      rep.unified && (tool == "read_report" || tool == "list_report_posts" || tool == "search_posts" || tool == "read_account_occurrence")
    case ShowAccountPost(postId) => rep.unified && postId in rep.posts
    case ListEvidence(_, _, _) => true
    case ListRiskComments(_, _, _) => rep.published && !rep.unified
  }

  /** The reference that a call takes and the kind it has to be of. */
  function Takes(call: Call): Option<(string, R.Kind)> {
    match call
    case ListFindingPosts(ref, _) => Some((ref, R.Finding))
    case ListCategoryPosts(ref, _) => Some((ref, R.Category))
    case ListEvidence(ref, _, _) => Some((ref, R.Post))
    case ListRiskComments(ref, _, _) => Some((ref, R.Post))
    case ReadReport | SearchPosts(_, _, _) | ShowPosts(_, _, _, _) | ShowAccountPost(_) => None
  }

  // ---- which records are accepted ----

  function CheckOf(rep: Report, r: R.Record): Result<()> {
    match r.kind
    case Category => ValidateCategory(rep, r)
    case Finding => ValidateFinding(rep, r)
    case Post => ValidatePost(rep, r)
    case Evidence => ValidateEvidence(rep, r)
    case Comment => Ok(())
  }

  /** The origin names a category directory for a post that no category has: the check ends there. */
  predicate Breaks(rep: Report, r: R.Record, o: R.Origin) {
    r.kind.Post? && !rep.unified && o.sourceTool == "list_category_posts" && r.objectId !in rep.caseOfPost
  }

  lemma {:induction false} PostOriginsIff(rep: Report, r: R.Record, origins: seq<R.Origin>)
    requires r.kind.Post? && !rep.unified && r.objectId in rep.posts
    ensures PostOrigins(rep, r.objectId, origins) == Ok(true) <==>
      exists i :: 0 <= i < |origins| && Legit(rep, R.Post, r.objectId, origins[i])
        && forall j | 0 <= j < i :: !Breaks(rep, r, origins[j])
    decreases |origins|
  {
    hide FindMember, Membership;
    if origins != [] {
      var tail := origins[1..];
      PostOriginsIff(rep, r, tail);
      if Legit(rep, R.Post, r.objectId, origins[0]) {
        assert 0 <= 0 < |origins|;
      } else if Breaks(rep, r, origins[0]) {
      } else {
        assert PostOrigins(rep, r.objectId, origins) == Ok(true) <==> PostOrigins(rep, r.objectId, tail) == Ok(true);
        if i :| 0 <= i < |tail| && Legit(rep, R.Post, r.objectId, tail[i]) && forall j | 0 <= j < i :: !Breaks(rep, r, tail[j]) {
          assert origins[i + 1] == tail[i] && forall j | 0 <= j < i + 1 :: !Breaks(rep, r, origins[j]);
        }
        if i :| 0 <= i < |origins| && Legit(rep, R.Post, r.objectId, origins[i]) && forall j | 0 <= j < i :: !Breaks(rep, r, origins[j]) {
          assert tail[i - 1] == origins[i] && forall j | 0 <= j < i - 1 :: tail[j] == origins[j + 1];
        }
      }
    }
  }

  /** A consumer accepts a record exactly if one of its origins is legitimate, and nothing broke the check off before. */
  lemma AcceptedIff(rep: Report, r: R.Record)
    requires WellFormed(rep) && !r.kind.Comment?
    ensures CheckOf(rep, r).Ok? <==>
      exists i :: 0 <= i < |r.origins| && Legit(rep, r.kind, r.objectId, r.origins[i])
        && forall j | 0 <= j < i :: !Breaks(rep, r, r.origins[j])
  {
    hide FindMember, Membership, PostOrigins, FindingsOk;
    if r.kind.Post? && !rep.unified && r.objectId in rep.posts {
      PostOriginsIff(rep, r, r.origins);
    }
    if CheckOf(rep, r).Ok? && (!r.kind.Post? || rep.unified) {
      var o :| o in r.origins && Legit(rep, r.kind, r.objectId, o);
      var i :| 0 <= i < |r.origins| && r.origins[i] == o;
    }
  }

  /** A comment of this post is accepted exactly if it was shown under it and is one of its risk comments. */
  lemma CommentAcceptedIff(rep: Report, r: R.Record, postId: string)
    requires r.kind.Comment?
    ensures ValidateComment(rep, r, postId).Ok? <==>
      exists i :: 0 <= i < |r.origins| && r.origins[i].parentId == Some(postId) && Legit(rep, R.Comment, r.objectId, r.origins[i])
  {
    if ValidateComment(rep, r, postId).Ok? {
      var o :| o in r.origins && ShownUnder(o, postId);
      var i :| 0 <= i < |r.origins| && r.origins[i] == o;
    }
  }

  // ---- what is listed ----

  lemma {:induction false} FilterSame(ids: seq<string>, a: string -> bool, b: string -> bool)
    requires forall x <- ids :: a(x) <==> b(x)
    ensures Filter(ids, a) == Filter(ids, b)
  {
    if ids != [] {
      assert ids[0] in ids && forall x <- ids[1..] :: x in ids;
      FilterSame(ids[1..], a, b);
    }
  }

  lemma FiltersMean(rep: Report, filters: Filters, types: set<string>, postId: string)
    ensures RiskCandidates(rep, filters) == Filter(rep.postOrder, RiskyAndFitting(rep, filters))
    ensures FilteredPosts(rep, filters) == Filter(rep.postOrder, Fitting(rep, filters))
    ensures EvidenceOfTypes(rep, postId, types) == Filter(Listed(rep.evidenceByPost, postId), TypedBy(rep, types))
  {
    forall p ensures IsRiskUnder(rep, filters)(p) <==> RiskyAndFitting(rep, filters)(p) {}
    forall p ensures PassesUnder(rep, filters)(p) <==> Fitting(rep, filters)(p) {}
    forall e ensures OfTypes(rep, types)(e) <==> TypedBy(rep, types)(e) {
      assert e in rep.evidence ==> (rep.evidence[e].kind in types <==> exists t <- types :: rep.evidence[e].kind == t);
    }
    hide Filter;
    FilterSame(rep.postOrder, IsRiskUnder(rep, filters), RiskyAndFitting(rep, filters));
    FilterSame(rep.postOrder, PassesUnder(rep, filters), Fitting(rep, filters));
    FilterSame(Listed(rep.evidenceByPost, postId), OfTypes(rep, types), TypedBy(rep, types));
  }

  lemma {:induction false} FilterKind(items: seq<Item>, kind: R.Kind, other: R.Kind)
    requires AllOf(items, kind)
    ensures Filter(items, OfKind(other)) == if other == kind then items else []
  {
    if items != [] {
      assert items[0].kind == kind && forall i | 0 <= i < |items[1..]| :: items[1..][i] == items[i + 1];
      FilterKind(items[1..], kind, other);
    }
  }

  lemma IdsConcat(a: seq<Item>, b: seq<Item>)
    ensures IdsIn(a + b) == IdsIn(a) + IdsIn(b)
  {
  }

  lemma ReportSplits(rep: Report)
    requires rep.published && !rep.unified
    ensures
      var items, n := ReportItems(rep), |rep.findingOrder|;
      && |items| == n + |rep.standalone|
      && AllOf(items[..n], R.Finding) && IdsIn(items[..n]) == rep.findingOrder
      && AllOf(items[n..], R.Post) && IdsIn(items[n..]) == rep.standalone
  {
  }

  lemma ReportShows(rep: Report)
    requires rep.published && !rep.unified
    ensures
      var items := ReportItems(rep);
      && IdsIn(Filter(items, OfKind(R.Finding))) == rep.findingOrder
      && IdsIn(Filter(items, OfKind(R.Post))) == rep.standalone
      && |items| == |rep.findingOrder| + |rep.standalone|
  {
    hide Filter, ReportItems, IdsIn, AllOf;
    var n := |rep.findingOrder|;
    var items := ReportItems(rep);
    ReportSplits(rep);
    var a, b := items[..n], items[n..];
    assert items == a + b;
    FilterConcat(a, b, OfKind(R.Finding));
    FilterConcat(a, b, OfKind(R.Post));
    FilterKind(a, R.Finding, R.Finding);
    FilterKind(b, R.Post, R.Finding);
    FilterKind(a, R.Finding, R.Post);
    FilterKind(b, R.Post, R.Post);
    assert a + [] == a && [] + b == b;
  }

  lemma MemberSplits(findingId: string, m: Member)
    ensures
      var items := MemberItems(findingId, m);
      && |items| == 1 + |m.evidenceIds|
      && AllOf(items[..1], R.Post) && IdsIn(items[..1]) == [m.postId]
      && AllOf(items[1..], R.Evidence) && IdsIn(items[1..]) == m.evidenceIds
  {
  }

  lemma MemberShows(findingId: string, m: Member)
    ensures
      var items := MemberItems(findingId, m);
      && IdsIn(Filter(items, OfKind(R.Post))) == [m.postId]
      && IdsIn(Filter(items, OfKind(R.Evidence))) == m.evidenceIds
      && |items| == 1 + |m.evidenceIds|
  {
    hide Filter, MemberItems, IdsIn, AllOf;
    var items := MemberItems(findingId, m);
    MemberSplits(findingId, m);
    var a, b := items[..1], items[1..];
    assert items == a + b;
    FilterConcat(a, b, OfKind(R.Post));
    FilterConcat(a, b, OfKind(R.Evidence));
    FilterKind(a, R.Post, R.Post);
    FilterKind(b, R.Evidence, R.Post);
    FilterKind(a, R.Post, R.Evidence);
    FilterKind(b, R.Evidence, R.Evidence);
    assert a + [] == a && [] + b == b;
  }

  lemma {:induction false} MembersShow(findingId: string, members: seq<Member>)
    ensures
      var items := MembersItems(findingId, members);
      && IdsIn(Filter(items, OfKind(R.Post))) == MemberPosts(members)
      && IdsIn(Filter(items, OfKind(R.Evidence))) == MemberEvidence(members)
      && |items| == |members| + |MemberEvidence(members)|
  {
    if members != [] {
      var a, b := MemberItems(findingId, members[0]), MembersItems(findingId, members[1..]);
      MemberShows(findingId, members[0]);
      MembersShow(findingId, members[1..]);
      FilterConcat(a, b, OfKind(R.Post));
      FilterConcat(a, b, OfKind(R.Evidence));
      hide Filter, MemberItems;
      IdsConcat(Filter(a, OfKind(R.Post)), Filter(b, OfKind(R.Post)));
      IdsConcat(Filter(a, OfKind(R.Evidence)), Filter(b, OfKind(R.Evidence)));
      assert MemberPosts(members) == [members[0].postId] + MemberPosts(members[1..]);
    }
  }

  lemma TakesStretch<T>(s: seq<T>, offset: nat, n: nat)
    ensures IsStretch(Slice(s, offset, n), s, offset, n) && IsStretch(Take(s, n), s, 0, n)
  {
  }

  lemma PostsShow(ids: seq<string>, origin: R.Origin)
    ensures AllOf(PostItems(ids, origin), R.Post) && IdsIn(PostItems(ids, origin)) == ids
  {
  }

  lemma UnderPostShow(ids: seq<string>, postId: string)
    ensures AllOf(EvidenceItems(ids, postId), R.Evidence) && IdsIn(EvidenceItems(ids, postId)) == ids
    ensures AllOf(CommentItems(ids, postId), R.Comment) && IdsIn(CommentItems(ids, postId)) == ids
  {
  }

  /** The record behind the reference of a call, if it is of the session's scope and of the right kind. */
  ghost predicate Accepts(rep: Report, reg: R.Registry, sessionId: string, call: Call) {
    Takes(call).Some? ==>
      var (ref, kind) := Takes(call).value;
      && sessionId in reg.scopes && ref in reg.records && reg.records[ref].scope == reg.scopes[sessionId]
      && reg.records[ref].kind == kind && CheckOf(rep, reg.records[ref]).Ok?
  }

  function ObjectOf(reg: R.Registry, call: Call): string {
    if Takes(call).Some? && Takes(call).value.0 in reg.records then reg.records[Takes(call).value.0].objectId else ""
  }

  /** A call is answered exactly if the report has the tool and its reference is current and accepted. */
  lemma AnsweredIff(rep: Report, reg: R.Registry, sessionId: string, call: Call)
    requires R.Valid(reg)
    ensures ItemsOf(rep, reg, sessionId, call).Ok? <==> Available(rep, call) && Accepts(rep, reg, sessionId, call)
  {
    hide R.Valid, R.Resolve, ValidatePost, ValidateFinding, ValidateCategory, ValidateEvidence, RiskCandidates, FilteredPosts, EvidenceOfTypes,
      PostItems, EvidenceItems, CommentItems, MembersItems, ReportItems, Take, Slice;
    if Takes(call).Some? {
      R.ResolvedIsCurrent(reg, sessionId, Takes(call).value.0, Some(Takes(call).value.1));
    }
    FindingIsThere(rep, reg, call);
  }

  lemma FindingIsThere(rep: Report, reg: R.Registry, call: Call)
    ensures forall r | ValidateFinding(rep, r).Ok? :: r.objectId in rep.findings
    ensures forall r | ValidateCategory(rep, r).Ok? :: r.objectId in rep.cases
  {
  }

  /** An answered call shows exactly the objects that its tool and its arguments name, in their frozen order. */
  lemma AnsweredShows(rep: Report, reg: R.Registry, sessionId: string, call: Call)
    requires R.Valid(reg) && ItemsOf(rep, reg, sessionId, call).Ok?
    ensures Shows(rep, call, ObjectOf(reg, call), ItemsOf(rep, reg, sessionId, call).value)
  {
    hide R.Valid, R.Resolve, ValidatePost, ValidateEvidence, RiskCandidates, FilteredPosts, EvidenceOfTypes, Filter, IsStretch, AllOf, IdsIn,
      PostItems, EvidenceItems, CommentItems, MembersItems, Take, Slice, MemberPosts, MemberEvidence;
    if Takes(call).Some? {
      R.ResolvedIsCurrent(reg, sessionId, Takes(call).value.0, Some(Takes(call).value.1));
    }
    var objectId := ObjectOf(reg, call);
    match call
    case ReadReport =>
      if rep.published && !rep.unified {
        ReportShows(rep);
      } else if !rep.unified {
        CasesShow(rep);
      }
    case ListFindingPosts(ref, limit) =>
      TakesStretch(rep.findings[objectId], 0, limit);
      MembersShow(objectId, Take(rep.findings[objectId], limit));
    case ListCategoryPosts(ref, limit) =>
      TakesStretch(rep.cases[objectId], 0, limit);
      PostsShow(Take(rep.cases[objectId], limit), R.Origin(Some(objectId), "list_category_posts", "report_category_post_directory", "preview"));
    case SearchPosts(filters, offset, limit) =>
      FiltersMean(rep, filters, {}, "");
      TakesStretch(RiskCandidates(rep, filters), offset, limit);
      PostsShow(Slice(RiskCandidates(rep, filters), offset, limit),
                R.Origin(Some(rep.snapshotId), "search_posts", "risk_post_candidate_directory", "risk_preview"));
    case ShowPosts(tool, filters, offset, limit) =>
      FiltersMean(rep, filters, {}, "");
      TakesStretch(FilteredPosts(rep, filters), offset, limit);
      PostsShow(Slice(FilteredPosts(rep, filters), offset, limit), CardOrigin(rep, tool));
    case ShowAccountPost(postId) => PostsShow([postId], CardOrigin(rep, "read_account_occurrence"));
    case ListEvidence(ref, types, limit) =>
      FiltersMean(rep, Filters(None, None), types, objectId);
      TakesStretch(EvidenceOfTypes(rep, objectId, types), 0, limit);
      UnderPostShow(Take(EvidenceOfTypes(rep, objectId, types), limit), objectId);
    case ListRiskComments(ref, offset, limit) =>
      TakesStretch(Listed(rep.riskComments, objectId), offset, limit);
      UnderPostShow(Slice(Listed(rep.riskComments, objectId), offset, limit), objectId);
  }

  lemma CasesShow(rep: Report)
    requires !rep.published && !rep.unified
    ensures AllOf(ReportItems(rep), R.Category) && IdsIn(ReportItems(rep)) == rep.caseIds
  {
  }
}
