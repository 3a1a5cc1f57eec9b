/**
  Loading a published report (`_load_report_graph`): the relations between posts, audit findings,
  evidence, investigation findings and standalone posts, and the coverage of the risk posts.
*/
module FrozenReport {
  import opened Wrappers
  import opened Sorting
  import Tokens

  datatype PostRow = PostRow(postRef: string)

  /** An audit finding; a decision or level that its payload lacks is empty. */
  datatype FindingRow = FindingRow(findingRef: string, postRef: string, decision: string, riskLevel: string)

  datatype EvidenceRow = EvidenceRow(evidenceRef: string, postRef: string, findingRef: string, supportType: string)

  datatype Membership = Membership(postRef: string, auditFindingRef: string, isRepresentative: bool, evidenceRefs: seq<string>)

  datatype InvestigationRow = InvestigationRow(findingRef: string, displayOrdinal: int, memberships: seq<Membership>)

  datatype Standalone = Standalone(postRef: string, auditFindingRef: string)

  datatype Template = Investigation | AllPass | SingleRisk | UnifiedAudit

  /** What the loader reads, after the payload hashes were checked. */
  datatype Source = Source(template: Template, posts: seq<PostRow>, findings: seq<FindingRow>, evidence: seq<EvidenceRow>,
                           investigations: seq<InvestigationRow>, standalone: seq<Standalone>, coverageComplete: bool)

  datatype Report = Report(posts: seq<PostRow>, findingByPost: map<string, string>, findings: map<string, FindingRow>,
                           evidenceByPost: map<string, seq<EvidenceRow>>, evidence: map<string, EvidenceRow>,
                           investigations: seq<InvestigationRow>, standalone: seq<Standalone>)

  /** `is_deterministic_risk_finding`. */
  predicate IsRisk(f: FindingRow) {
    f.decision in {"review", "reject"} && f.riskLevel in {"low", "medium", "high"}
  }

  /** The decision and the level that the projected finding has. */
  function DecisionOf(f: FindingRow): string {
    if f.decision == "" then "pass" else f.decision
  }

  function LevelOf(f: FindingRow): string {
    if f.riskLevel == "" then "none" else f.riskLevel
  }

  /** `_evidence_type`. */
  function EvidenceType(value: string): string {
    if value == "visual" || value == "image" then "keyframe"
    else if value in ["comment", "text", "asr", "ocr"] then value
    else "text"
  }

  const EVIDENCE_TYPES: map<string, string> :=
    map["comment" := "comment", "visual" := "keyframe", "image" := "keyframe", "text" := "text", "asr" := "asr", "ocr" := "ocr"]

  lemma EvidenceTypeIs(value: string)
    ensures EvidenceType(value) == if value in EVIDENCE_TYPES then EVIDENCE_TYPES[value] else "text"
  {
  }

  function PostRefs(posts: seq<PostRow>): set<string> {
    set p <- posts :: p.postRef
  }

  const PostRef: PostRow -> string := (p: PostRow) => p.postRef
  const FindingRef: FindingRow -> string := (f: FindingRow) => f.findingRef
  const EvidenceRef: EvidenceRow -> string := (e: EvidenceRow) => e.evidenceRef
  const MemberPost: Membership -> string := (m: Membership) => m.postRef
  const StandalonePost: Standalone -> string := (s: Standalone) => s.postRef
  const Same: string -> string := (s: string) => s

  /** The index leads from every reference to its row, and to nothing else. */
  ghost predicate IsIndex<T(!new)>(index: map<string, T>, rows: seq<T>, refOf: T -> string) {
    && (forall x <- rows :: refOf(x) in index && index[refOf(x)] == x)
    && (forall r <- index :: index[r] in rows && refOf(index[r]) == r)
  }

  lemma IndexIsDetermined<T(!new)>(a: map<string, T>, b: map<string, T>, rows: seq<T>, refOf: T -> string)
    requires IsIndex(a, rows, refOf) && IsIndex(b, rows, refOf)
    ensures a == b
  {
    forall r | r in a ensures r in b && b[r] == a[r] {
      assert refOf(a[r]) == r;
    }
    forall r | r in b ensures r in a {
      assert refOf(b[r]) == r;
    }
  }

  /** `_validated_payloads`: the rows by reference, or nothing when a reference repeats. */
  method ByReference<T(!new, ==)>(rows: seq<T>, refOf: T -> string) returns (index: Option<map<string, T>>)
    ensures index.Some? <==> UniqueBy(rows, refOf)
    ensures index.Some? ==> IsIndex(index.value, rows, refOf)
  {
    var output: map<string, T> := map[];
    for i := 0 to |rows|
      invariant UniqueBy(rows[..i], refOf)
      invariant IsIndex(output, rows[..i], refOf)
    {
      var ref := refOf(rows[i]);
      assert rows[..i + 1] == rows[..i] + [rows[i]];
      if ref in output {
        var j :| 0 <= j < i && rows[..i][j] == output[ref];
        assert refOf(rows[j]) == refOf(rows[i]);
        return None;
      }
      forall j | 0 <= j < i ensures refOf(rows[j]) != ref {
        assert rows[..i][j] in rows[..i];
      }
      output := output[ref := rows[i]];
    }
    assert rows[..|rows|] == rows;
    return Some(output);
  }

  // ---- posts and audit findings ----

  /** Every post has one audit finding, and every audit finding belongs to a post of the snapshot. */
  ghost predicate Related(src: Source, findingByPost: map<string, string>) {
    && UniqueBy(src.posts, PostRef) && UniqueBy(src.findings, FindingRef)
    && findingByPost.Keys == PostRefs(src.posts)
    && (forall f <- src.findings :: f.postRef in findingByPost && findingByPost[f.postRef] == f.findingRef)
    && (forall p <- findingByPost :: exists f <- src.findings :: f.postRef == p)
  }

  lemma RelationIsDetermined(src: Source, a: map<string, string>, b: map<string, string>)
    requires Related(src, a) && Related(src, b)
    ensures a == b
  {
  }

  /** The loop that builds `finding_by_post`. */
  method RelateFindings(src: Source) returns (findingByPost: Option<map<string, string>>)
    requires UniqueBy(src.posts, PostRef) && UniqueBy(src.findings, FindingRef)
    ensures findingByPost.Some? ==> Related(src, findingByPost.value)
    ensures findingByPost.None? ==> forall m :: !Related(src, m)
  {
    var output: map<string, string> := map[];
    var posts := PostRefs(src.posts);
    for i := 0 to |src.findings|
      invariant output.Keys <= posts
      invariant forall f <- src.findings[..i] :: f.postRef in output && output[f.postRef] == f.findingRef
      invariant forall p <- output :: exists j :: 0 <= j < i && src.findings[j].postRef == p && src.findings[j].findingRef == output[p]
    {
      var row := src.findings[i];
      assert row in src.findings && src.findings[..i + 1] == src.findings[..i] + [row];
      if row.postRef !in posts {
        return None;
      }
      if row.postRef in output {
        var j :| 0 <= j < i && src.findings[j].postRef == row.postRef;
        assert src.findings[j] in src.findings && FindingRef(src.findings[j]) != FindingRef(src.findings[i]);
        return None;
      }
      output := output[row.postRef := row.findingRef];
    }
    assert src.findings[..|src.findings|] == src.findings;
    if output.Keys != posts {
      var p :| p in posts && p !in output;
      forall m ensures !Related(src, m) {
        assert Related(src, m) ==> p in m;
      }
      return None;
    }
    return Some(output);
  }

  // ---- evidence ----

  function EvidenceOf(rows: seq<EvidenceRow>, postRef: string): seq<EvidenceRow> {
    if rows == [] then []
    else
      var last := rows[|rows| - 1];
      EvidenceOf(rows[..|rows| - 1], postRef) + (if last.postRef == postRef then [last] else [])
  }

  ghost predicate EvidenceOwned(rows: seq<EvidenceRow>, findingByPost: map<string, string>) {
    forall e <- rows :: e.postRef in findingByPost && findingByPost[e.postRef] == e.findingRef
  }

  /** The evidence index agrees with a scan of all rows, in their order. */
  ghost predicate IndexAgrees(index: map<string, seq<EvidenceRow>>, rows: seq<EvidenceRow>) {
    forall p :: (if p in index then index[p] else []) == EvidenceOf(rows, p)
  }

  /** The loop over the evidence rows, with its per-post grouping. */
  method GroupEvidence(rows: seq<EvidenceRow>, findingByPost: map<string, string>) returns (index: Option<map<string, seq<EvidenceRow>>>)
    ensures index.Some? <==> EvidenceOwned(rows, findingByPost)
    ensures index.Some? ==> IndexAgrees(index.value, rows)
  {
    var grouped: map<string, seq<EvidenceRow>> := map[];
    for i := 0 to |rows|
      invariant EvidenceOwned(rows[..i], findingByPost)
      invariant IndexAgrees(grouped, rows[..i])
    {
      var row := rows[i];
      assert rows[..i + 1][..i] == rows[..i] && rows[..i + 1] == rows[..i] + [row];
      if row.postRef !in findingByPost || findingByPost[row.postRef] != row.findingRef {
        return None;
      }
      grouped := grouped[row.postRef := (if row.postRef in grouped then grouped[row.postRef] else []) + [row]];
    }
    assert rows[..|rows|] == rows;
    return Some(grouped);
  }

  // ---- investigation findings ----

  function AfterLastColon(s: string): string {
    if s == "" then "" else if s[|s| - 1] == ':' then "" else AfterLastColon(s[..|s| - 1]) + [s[|s| - 1]]
  }

  /** What stands behind the last colon; the whole text if there is none. */
  lemma {:induction false} AfterLastColonIs(front: string, tail: string)
    requires ':' !in tail && (front == "" || front[|front| - 1] == ':')
    ensures AfterLastColon(front + tail) == tail
    decreases |tail|
  {
    var s := front + tail;
    if tail != "" {
      var init := tail[..|tail| - 1];
      assert s[..|s| - 1] == front + init && s[|s| - 1] == tail[|tail| - 1] && tail[|tail| - 1] in tail;
      AfterLastColonIs(front, init);
    } else {
      assert s == front;
    }
  }

  ghost predicate EvidenceSupports(m: Membership, evidence: map<string, EvidenceRow>, ref: string) {
    && ref in evidence
    && evidence[ref].postRef == m.postRef && evidence[ref].findingRef == m.auditFindingRef
    && evidence[ref].supportType == "direct"
  }

  ghost predicate MembershipOk(m: Membership, posts: set<string>, findings: map<string, FindingRow>, evidence: map<string, EvidenceRow>) {
    && m.postRef in posts
    && m.auditFindingRef in findings && findings[m.auditFindingRef].postRef == m.postRef
    && UniqueBy(m.evidenceRefs, Same)
    && forall r <- m.evidenceRefs :: EvidenceSupports(m, evidence, r)
  }

  function Representatives(memberships: seq<Membership>): nat {
    if memberships == [] then 0
    else Representatives(memberships[..|memberships| - 1]) + (if memberships[|memberships| - 1].isRepresentative then 1 else 0)
  }

  ghost predicate InvestigationOk(row: InvestigationRow, position: nat, posts: set<string>,
                                  findings: map<string, FindingRow>, evidence: map<string, EvidenceRow>)
  {
    && row.displayOrdinal == position && AfterLastColon(row.findingRef) == "IF" + Tokens.Decimal(position)
    && UniqueBy(row.memberships, MemberPost)
    && (forall m <- row.memberships :: MembershipOk(m, posts, findings, evidence))
    && Representatives(row.memberships) == 1
  }

  method CheckEvidenceRefs(m: Membership, evidence: map<string, EvidenceRow>) returns (ok: bool)
    ensures ok <==> UniqueBy(m.evidenceRefs, Same) && forall r <- m.evidenceRefs :: EvidenceSupports(m, evidence, r)
  {
    var index := ByReference(m.evidenceRefs, Same);
    if index.None? {
      return false;
    }
    for i := 0 to |m.evidenceRefs|
      invariant forall r <- m.evidenceRefs[..i] :: EvidenceSupports(m, evidence, r)
    {
      var ref := m.evidenceRefs[i];
      assert m.evidenceRefs[..i + 1] == m.evidenceRefs[..i] + [ref];
      if ref !in evidence || evidence[ref].postRef != m.postRef || evidence[ref].findingRef != m.auditFindingRef
         || evidence[ref].supportType != "direct" {
        assert ref in m.evidenceRefs && !EvidenceSupports(m, evidence, ref);
        return false;
      }
    }
    assert m.evidenceRefs[..|m.evidenceRefs|] == m.evidenceRefs;
    return true;
  }

  method CheckMembership(m: Membership, posts: set<string>, findings: map<string, FindingRow>,
                         evidence: map<string, EvidenceRow>) returns (ok: bool)
    ensures ok <==> MembershipOk(m, posts, findings, evidence)
  {
    hide EvidenceSupports, UniqueBy;
    if m.postRef !in posts || m.auditFindingRef !in findings || findings[m.auditFindingRef].postRef != m.postRef {
      return false;
    }
    ok := CheckEvidenceRefs(m, evidence);
  }

  /** The body of the loop over the rows of `_load_investigation_findings`. */
  method CheckInvestigation(row: InvestigationRow, position: nat, posts: set<string>,
                            findings: map<string, FindingRow>, evidence: map<string, EvidenceRow>) returns (ok: bool)
    ensures ok <==> InvestigationOk(row, position, posts, findings, evidence)
  {
    hide AfterLastColon, MembershipOk;
    if row.displayOrdinal != position || AfterLastColon(row.findingRef) != "IF" + Tokens.Decimal(position) {
      return false;
    }
    ok := CheckMemberships(row.memberships, posts, findings, evidence);
  }

  /** The loop over the memberships of one finding has come this far. */
  ghost predicate MembersSoFar(ms: seq<Membership>, i: nat, seen: set<string>, representatives: nat, posts: set<string>,
                               findings: map<string, FindingRow>, evidence: map<string, EvidenceRow>)
  {
    && i <= |ms|
    && seen == (set m <- ms[..i] :: m.postRef)
    && UniqueBy(ms[..i], MemberPost)
    && (forall m <- ms[..i] :: MembershipOk(m, posts, findings, evidence))
    && representatives == Representatives(ms[..i])
  }

  lemma NextMember(ms: seq<Membership>, i: nat, seen: set<string>, representatives: nat, posts: set<string>,
                   findings: map<string, FindingRow>, evidence: map<string, EvidenceRow>)
    requires i < |ms| && MembersSoFar(ms, i, seen, representatives, posts, findings, evidence)
    requires MembershipOk(ms[i], posts, findings, evidence) && ms[i].postRef !in seen
    ensures MembersSoFar(ms, i + 1, seen + {ms[i].postRef}, representatives + (if ms[i].isRepresentative then 1 else 0),
                         posts, findings, evidence)
  {
    hide MembershipOk;
    var s, m := ms[..i], ms[i];
    assert ms[..i + 1] == s + [m] && (s + [m])[..i] == s;
    forall j, k | 0 <= j < k < i + 1 ensures MemberPost((s + [m])[j]) != MemberPost((s + [m])[k]) {
      if k < i {
        assert MemberPost(s[j]) != MemberPost(s[k]);
      } else {
        assert s[j].postRef in seen;
      }
    }
  }

  lemma RepeatedMember(ms: seq<Membership>, i: nat, seen: set<string>)
    requires i < |ms| && seen == (set m <- ms[..i] :: m.postRef) && ms[i].postRef in seen
    ensures !UniqueBy(ms, MemberPost)
  {
    var j :| 0 <= j < i && ms[..i][j].postRef == ms[i].postRef;
    assert MemberPost(ms[j]) == MemberPost(ms[i]);
  }

  method CheckMemberships(ms: seq<Membership>, posts: set<string>, findings: map<string, FindingRow>,
                          evidence: map<string, EvidenceRow>) returns (ok: bool)
    ensures ok <==> UniqueBy(ms, MemberPost) && (forall m <- ms :: MembershipOk(m, posts, findings, evidence))
                    && Representatives(ms) == 1
  {
    hide MembershipOk, UniqueBy;
    var seen, representatives := {}, 0;
    assert UniqueBy(ms[..0], MemberPost) by {
      NothingRepeats(ms);
    }
    for i := 0 to |ms|
      invariant MembersSoFar(ms, i, seen, representatives, posts, findings, evidence)
    {
      if ms[i].postRef in seen {
        RepeatedMember(ms, i, seen);
        return false;
      }
      ok := CheckMembership(ms[i], posts, findings, evidence);
      if !ok {
        assert ms[i] in ms;
        return false;
      }
      NextMember(ms, i, seen, representatives, posts, findings, evidence);
      seen := seen + {ms[i].postRef};
      representatives := representatives + if ms[i].isRepresentative then 1 else 0;
    }
    assert ms[..|ms|] == ms;
    return representatives == 1;
  }

  lemma NothingRepeats(ms: seq<Membership>)
    ensures UniqueBy(ms[..0], MemberPost)
  {
  }

  ghost predicate InvestigationsOk(rows: seq<InvestigationRow>, posts: set<string>,
                                   findings: map<string, FindingRow>, evidence: map<string, EvidenceRow>)
  {
    forall i | 0 <= i < |rows| :: InvestigationOk(rows[i], i + 1, posts, findings, evidence)
  }

  method CheckInvestigations(rows: seq<InvestigationRow>, posts: set<string>, findings: map<string, FindingRow>,
                             evidence: map<string, EvidenceRow>) returns (ok: bool)
    ensures ok <==> InvestigationsOk(rows, posts, findings, evidence)
  {
    hide InvestigationOk;
    for i := 0 to |rows|
      invariant forall k | 0 <= k < i :: InvestigationOk(rows[k], k + 1, posts, findings, evidence)
    {
      ok := CheckInvestigation(rows[i], i + 1, posts, findings, evidence);
      if !ok {
        return false;
      }
    }
    return true;
  }

  // ---- standalone posts ----

  ghost predicate StandaloneOk(items: seq<Standalone>, findingByPost: map<string, string>) {
    && UniqueBy(items, StandalonePost)
    && forall s <- items :: s.postRef in findingByPost && findingByPost[s.postRef] == s.auditFindingRef
  }

  /** `_load_standalone`. */
  method CheckStandalone(items: seq<Standalone>, findingByPost: map<string, string>) returns (ok: bool)
    ensures ok <==> StandaloneOk(items, findingByPost)
  {
    var seen := {};
    for i := 0 to |items|
      invariant seen == set s <- items[..i] :: s.postRef
      invariant StandaloneOk(items[..i], findingByPost)
    {
      var item := items[i];
      assert item in items && items[..i + 1] == items[..i] + [item];
      if item.postRef in seen {
        var j :| 0 <= j < i && items[..i][j].postRef == item.postRef;
        assert StandalonePost(items[j]) == StandalonePost(items[i]);
        return false;
      }
      if item.postRef !in findingByPost || findingByPost[item.postRef] != item.auditFindingRef {
        return false;
      }
      forall j | 0 <= j < i ensures StandalonePost(items[j]) != StandalonePost(item) {
        assert items[..i][j].postRef in seen;
      }
      seen := seen + {item.postRef};
    }
    assert items[..|items|] == items;
    return true;
  }

  // ---- coverage ----

  function Members(rows: seq<InvestigationRow>): set<string> {
    set r <- rows, m <- r.memberships :: m.postRef
  }

  function StandalonePosts(items: seq<Standalone>): set<string> {
    set s <- items :: s.postRef
  }

  function RiskPostRefs(findings: seq<FindingRow>): set<string> {
    set f <- findings | IsRisk(f) :: f.postRef
  }

  /** `_validate_risk_coverage`. */
  predicate Covered(src: Source, standalone: seq<Standalone>) {
    && Members(src.investigations) * StandalonePosts(standalone) == {}
    && Members(src.investigations) + StandalonePosts(standalone) == RiskPostRefs(src.findings)
    && (src.template.Investigation? ==> src.coverageComplete)
  }

  /** A single-risk report gets its one post as a standalone post, without a row that says so. */
  function StandaloneItems(src: Source): seq<Standalone> {
    if src.template.SingleRisk? && src.findings != []
    then [Standalone(src.findings[0].postRef, src.findings[0].findingRef)] else src.standalone
  }

  predicate TemplateOk(src: Source) {
    && (src.template.AllPass? ==>
          src.evidence == [] && forall f <- src.findings :: f.decision == "pass" && f.riskLevel == "none")
    && (src.template.SingleRisk? ==>
          |src.posts| == 1 && src.investigations == [] && src.standalone == []
          && src.findings != [] && IsRisk(src.findings[0]))
  }

  // ---- the loader ----

  /** What every loaded report satisfies. */
  ghost predicate IsLoaded(src: Source, r: Report) {
    && r.posts == src.posts
    && Related(src, r.findingByPost)
    && UniqueBy(src.evidence, EvidenceRef)
    && IsIndex(r.findings, src.findings, FindingRef)
    && IsIndex(r.evidence, src.evidence, EvidenceRef)
    && EvidenceOwned(src.evidence, r.findingByPost)
    && IndexAgrees(r.evidenceByPost, src.evidence)
    && InvestigationsOk(src.investigations, PostRefs(src.posts), r.findings, r.evidence)
    && r.investigations == src.investigations
    && r.standalone == StandaloneItems(src)
    && StandaloneOk(src.standalone, r.findingByPost)
    && TemplateOk(src)
    && Covered(src, r.standalone)
  }

  lemma LoadedIsDetermined(src: Source, r: Report, findingByPost: map<string, string>,
                           findings: map<string, FindingRow>, evidence: map<string, EvidenceRow>)
    requires IsLoaded(src, r) && Related(src, findingByPost)
    requires IsIndex(findings, src.findings, FindingRef) && IsIndex(evidence, src.evidence, EvidenceRef)
    ensures r.findingByPost == findingByPost && r.findings == findings && r.evidence == evidence
  {
    hide Related, IsIndex;
    RelationIsDetermined(src, r.findingByPost, findingByPost);
    IndexIsDetermined(r.findings, findings, src.findings, FindingRef);
    IndexIsDetermined(r.evidence, evidence, src.evidence, EvidenceRef);
  }

  /** A report is loaded exactly when all its relations hold; the empty snapshot is refused. */
  method Load(src: Source) returns (loaded: Result<Report>)
    ensures loaded.Ok? ==> IsLoaded(src, loaded.value) && src.posts != []
    ensures loaded.Err? ==> src.posts == [] || forall r :: !IsLoaded(src, r)
  {
    hide IsIndex, UniqueBy, Related, InvestigationsOk, StandaloneOk, IndexAgrees, EvidenceOwned, TemplateOk, Covered, PostRefs, StandaloneItems;
    var postIndex := ByReference(src.posts, PostRef);
    var findingIndex := ByReference(src.findings, FindingRef);
    var evidenceIndex := ByReference(src.evidence, EvidenceRef);
    UniquenessIsRelated(src);
    if postIndex.None? || findingIndex.None? || evidenceIndex.None? {
      return Err("duplicate_snapshot_object");
    }
    if src.posts == [] || |src.posts| != |src.findings| {
      CountsMustAgree(src);
      return Err("incomplete_projection");
    }
    var findingByPost := RelateFindings(src);
    if findingByPost.None? {
      return Err("invalid_finding_relation");
    }
    forall r | IsLoaded(src, r)
      ensures r.findingByPost == findingByPost.value && r.findings == findingIndex.value && r.evidence == evidenceIndex.value
    {
      LoadedIsDetermined(src, r, findingByPost.value, findingIndex.value, evidenceIndex.value);
    }
    var evidenceByPost := GroupEvidence(src.evidence, findingByPost.value);
    if evidenceByPost.None? {
      return Err("invalid_evidence_parent");
    }
    var investigationsOk := CheckInvestigations(src.investigations, PostRefs(src.posts), findingIndex.value, evidenceIndex.value);
    if !investigationsOk {
      return Err("invalid_investigation_finding");
    }
    var standaloneOk := CheckStandalone(src.standalone, findingByPost.value);
    if !standaloneOk {
      return Err("invalid_standalone_post");
    }
    if !TemplateOk(src) {
      return Err("template_mismatch");
    }
    if !Covered(src, StandaloneItems(src)) {
      return Err("incomplete_coverage");
    }
    loaded := Ok(Report(src.posts, findingByPost.value, findingIndex.value, evidenceByPost.value, evidenceIndex.value,
                        src.investigations, StandaloneItems(src)));
  }

  lemma UniquenessIsRelated(src: Source)
    ensures forall m :: Related(src, m) ==> UniqueBy(src.posts, PostRef) && UniqueBy(src.findings, FindingRef)
  {
  }

  lemma CountsMustAgree(src: Source)
    ensures |src.posts| != |src.findings| ==> forall m :: !Related(src, m)
  {
    forall m | Related(src, m) ensures |src.posts| == |src.findings| {
      PostCount(src.posts);
      var postOf := (f: FindingRow) => f.postRef;
      forall i, j | 0 <= i < j < |src.findings| ensures postOf(src.findings[i]) != postOf(src.findings[j]) {
        assert src.findings[i] in src.findings && src.findings[j] in src.findings;
        assert FindingRef(src.findings[i]) != FindingRef(src.findings[j]);
      }
      UniqueCount(src.findings, postOf);
      assert KeySet(src.findings, postOf) == PostRefs(src.posts);
    }
  }

  // ---- what a loaded report guarantees ----

  /** `risk_posts()`: the posts of the snapshot whose audit finding is a risk, in snapshot order. */
  function RiskPosts(r: Report, posts: seq<PostRow>): seq<PostRow> {
    if posts == [] then []
    else
      var p := posts[0];
      (if p.postRef in r.findingByPost && r.findingByPost[p.postRef] in r.findings && IsRisk(r.findings[r.findingByPost[p.postRef]])
       then [p] else []) + RiskPosts(r, posts[1..])
  }

  lemma {:induction false} RiskPostsAre(src: Source, r: Report, posts: seq<PostRow>)
    requires IsLoaded(src, r) && UniqueBy(posts, PostRef) && forall p <- posts :: p in src.posts
    ensures UniqueBy(RiskPosts(r, posts), PostRef)
    ensures forall p <- RiskPosts(r, posts) :: p in posts
    ensures PostRefs(RiskPosts(r, posts)) == PostRefs(posts) * RiskPostRefs(src.findings)
  {
    hide IsLoaded, IsRisk;
    if posts != [] {
      var p := posts[0];
      assert p in posts && forall x <- posts[1..] :: x in posts;
      assert UniqueBy(posts[1..], PostRef);
      RiskPostsAre(src, r, posts[1..]);
      RiskPostIsRisk(src, r, p);
      assert posts == [p] + posts[1..];
      assert PostRefs(posts) == {p.postRef} + PostRefs(posts[1..]);
      assert p.postRef !in PostRefs(posts[1..]) by {
        forall x | x in posts[1..] ensures x.postRef != p.postRef {
          var i :| 0 <= i < |posts[1..]| && posts[1..][i] == x;
          assert PostRef(posts[0]) != PostRef(posts[i + 1]);
        }
      }
      RiskPostsSplit(r, posts);
    }
  }

  lemma RiskPostsSplit(r: Report, posts: seq<PostRow>)
    requires posts != [] && posts[0].postRef !in PostRefs(posts[1..])
    requires UniqueBy(RiskPosts(r, posts[1..]), PostRef) && forall p <- RiskPosts(r, posts[1..]) :: p in posts[1..]
    ensures
      var p := posts[0];
      var risky := p.postRef in r.findingByPost && r.findingByPost[p.postRef] in r.findings && IsRisk(r.findings[r.findingByPost[p.postRef]]);
      PostRefs(RiskPosts(r, posts)) == PostRefs(RiskPosts(r, posts[1..])) + (if risky then {p.postRef} else {})
    ensures UniqueBy(RiskPosts(r, posts), PostRef)
  {
    var p, rest := posts[0], RiskPosts(r, posts[1..]);
    FirstOfRiskPosts(r, posts);
    hide RiskPosts, UniqueBy, IsRisk;
    forall x | x in rest ensures x.postRef != p.postRef {
      assert x in posts[1..] && x.postRef in PostRefs(posts[1..]);
    }
    AddedInFront(p, rest);
  }

  lemma FirstOfRiskPosts(r: Report, posts: seq<PostRow>)
    requires posts != []
    ensures
      var p, rest := posts[0], RiskPosts(r, posts[1..]);
      var risky := p.postRef in r.findingByPost && r.findingByPost[p.postRef] in r.findings && IsRisk(r.findings[r.findingByPost[p.postRef]]);
      RiskPosts(r, posts) == if risky then [p] + rest else rest
  {
    hide IsRisk;
  }

  lemma AddedInFront(p: PostRow, rest: seq<PostRow>)
    requires UniqueBy(rest, PostRef) && forall x <- rest :: x.postRef != p.postRef
    ensures UniqueBy([p] + rest, PostRef) && PostRefs([p] + rest) == {p.postRef} + PostRefs(rest)
  {
    var all := [p] + rest;
    forall i, j | 0 <= i < j < |all| ensures PostRef(all[i]) != PostRef(all[j]) {
      if i == 0 {
        assert rest[j - 1] in rest;
      } else {
        assert PostRef(rest[i - 1]) != PostRef(rest[j - 1]);
      }
    }
  }

  lemma RiskPostIsRisk(src: Source, r: Report, p: PostRow)
    requires IsLoaded(src, r) && p in src.posts
    ensures p.postRef in r.findingByPost && r.findingByPost[p.postRef] in r.findings
    ensures IsRisk(r.findings[r.findingByPost[p.postRef]]) <==> p.postRef in RiskPostRefs(src.findings)
  {
    hide IsRisk;
    assert forall f <- src.findings :: FindingRef(f) == f.findingRef;
    assert p.postRef in PostRefs(src.posts);
    var f :| f in src.findings && f.postRef == p.postRef;
    assert r.findingByPost[p.postRef] == f.findingRef && r.findings[f.findingRef] == f;
    if p.postRef in RiskPostRefs(src.findings) {
      var g :| g in src.findings && IsRisk(g) && g.postRef == p.postRef;
      assert r.findingByPost[p.postRef] == g.findingRef && r.findings[g.findingRef] == g;
    }
  }

  /** An audit finding that sends its post to review or rejects it, for a low, medium or high risk. */
  ghost predicate RaisesRisk(f: FindingRow, postRef: string) {
    && f.postRef == postRef && (f.decision == "review" || f.decision == "reject")
    && (f.riskLevel == "low" || f.riskLevel == "medium" || f.riskLevel == "high")
  }

  /** The risk posts of a loaded report are the posts with such a finding, and each is a finding member or a standalone post. */
  lemma RiskPostsMean(src: Source, r: Report, postRef: string)
    requires IsLoaded(src, r)
    ensures postRef in PostRefs(RiskPosts(r, r.posts)) <==> exists f <- src.findings :: RaisesRisk(f, postRef)
    ensures (exists f <- src.findings :: RaisesRisk(f, postRef)) <==>
      postRef in Members(r.investigations) || postRef in StandalonePosts(r.standalone)
  {
    hide *;
    RiskPostsAreSplit(src, r);
    CoverageIs(src, r);
    RiskyRefs(src, postRef);
  }

  lemma CoverageIs(src: Source, r: Report)
    requires IsLoaded(src, r)
    ensures Members(r.investigations) + StandalonePosts(r.standalone) == RiskPostRefs(src.findings)
  {
    hide Related, UniqueBy, IsIndex, EvidenceOwned, IndexAgrees, InvestigationsOk, StandaloneOk, TemplateOk, StandaloneItems, IsRisk;
  }

  lemma RiskyRefs(src: Source, postRef: string)
    ensures postRef in RiskPostRefs(src.findings) <==> exists f <- src.findings :: RaisesRisk(f, postRef)
  {
    if postRef in RiskPostRefs(src.findings) {
      var f :| f in src.findings && IsRisk(f) && f.postRef == postRef;
      assert RaisesRisk(f, postRef);
    }
    if f :| f in src.findings && RaisesRisk(f, postRef) {
      assert IsRisk(f);
    }
  }

  /** The finding members and the standalone posts split the risk posts in two. */
  lemma RiskPostsAreSplit(src: Source, r: Report)
    requires IsLoaded(src, r)
    ensures Members(r.investigations) * StandalonePosts(r.standalone) == {}
    ensures Members(r.investigations) + StandalonePosts(r.standalone) == PostRefs(RiskPosts(r, r.posts))
  {
    RiskPostsAre(src, r, src.posts);
    forall x | x in RiskPostRefs(src.findings) ensures x in PostRefs(src.posts) {
      var f :| f in src.findings && IsRisk(f) && f.postRef == x;
      assert f.postRef in r.findingByPost;
    }
  }

  lemma StandaloneIsUnique(src: Source, r: Report)
    requires IsLoaded(src, r)
    ensures UniqueBy(r.standalone, StandalonePost)
  {
  }

  /** The three numbers of the risk accounting of `read_report` add up, for every loaded report. */
  lemma AccountingAddsUp(src: Source, r: Report)
    requires IsLoaded(src, r)
    ensures |Members(r.investigations)| + |r.standalone| == |RiskPosts(r, r.posts)|
  {
    RiskPostsAreUnique(src, r);
    RiskPostsAreSplit(src, r);
    StandaloneIsUnique(src, r);
    hide IsLoaded, UniqueBy, RiskPosts, Members, StandalonePosts, PostRefs;
    PostCount(RiskPosts(r, r.posts));
    StandaloneCount(r.standalone);
    DisjointCount(Members(r.investigations), StandalonePosts(r.standalone));
  }

  lemma DisjointCount(a: set<string>, b: set<string>)
    requires a * b == {}
    ensures |a + b| == |a| + |b|
  {
    assert a !! b by {
      assert forall x | x in a && x in b :: x in a * b;
    }
  }

  lemma PostCount(posts: seq<PostRow>)
    requires UniqueBy(posts, PostRef)
    ensures |PostRefs(posts)| == |posts|
  {
    UniqueCount(posts, PostRef);
    assert KeySet(posts, PostRef) == PostRefs(posts);
  }

  lemma StandaloneCount(items: seq<Standalone>)
    requires UniqueBy(items, StandalonePost)
    ensures |StandalonePosts(items)| == |items|
  {
    UniqueCount(items, StandalonePost);
    assert KeySet(items, StandalonePost) == StandalonePosts(items);
  }

  lemma RiskPostsAreUnique(src: Source, r: Report)
    requires IsLoaded(src, r)
    ensures UniqueBy(RiskPosts(r, r.posts), PostRef)
  {
    RiskPostsAre(src, r, src.posts);
  }

  lemma AliasesDiffer(a: nat, b: nat)
    requires a != b
    ensures "IF" + Tokens.Decimal(a) != "IF" + Tokens.Decimal(b)
  {
    Tokens.DecimalRoundTrip(a);
    Tokens.DecimalRoundTrip(b);
    var x, y := "IF" + Tokens.Decimal(a), "IF" + Tokens.Decimal(b);
    assert x[2..] == Tokens.Decimal(a) && y[2..] == Tokens.Decimal(b);
  }

  /** Investigation findings have distinct references, so the index by reference loses none. */
  lemma InvestigationRefsAreDistinct(src: Source, r: Report, i: nat, j: nat)
    requires IsLoaded(src, r) && i < j < |r.investigations|
    ensures r.investigations[i].findingRef != r.investigations[j].findingRef
  {
    assert InvestigationOk(r.investigations[i], i + 1, PostRefs(src.posts), r.findings, r.evidence);
    assert InvestigationOk(r.investigations[j], j + 1, PostRefs(src.posts), r.findings, r.evidence);
    AliasesDiffer(i + 1, j + 1);
  }

  lemma {:induction false} EvidenceOfScan(rows: seq<EvidenceRow>, postRef: string)
    ensures forall e :: e in EvidenceOf(rows, postRef) <==> e in rows && e.postRef == postRef
  {
    if rows != [] {
      EvidenceOfScan(rows[..|rows| - 1], postRef);
      assert rows == rows[..|rows| - 1] + [rows[|rows| - 1]];
    }
  }

  /** The evidence that a membership names is evidence of the member post itself, under its own audit finding. */
  lemma MembershipEvidenceBelongs(src: Source, r: Report, i: nat, m: Membership, ref: string)
    requires IsLoaded(src, r) && i < |r.investigations| && m in r.investigations[i].memberships && ref in m.evidenceRefs
    ensures ref in r.evidence
    ensures m.postRef in r.evidenceByPost && r.evidence[ref] in r.evidenceByPost[m.postRef]
    ensures m.postRef in r.findingByPost && r.findingByPost[m.postRef] == m.auditFindingRef
  {
    assert InvestigationOk(r.investigations[i], i + 1, PostRefs(src.posts), r.findings, r.evidence);
    assert MembershipOk(m, PostRefs(src.posts), r.findings, r.evidence) && EvidenceSupports(m, r.evidence, ref);
    var e := r.evidence[ref];
    EvidenceOfScan(src.evidence, m.postRef);
    assert e in EvidenceOf(src.evidence, m.postRef);
  }

  lemma {:induction false} EvidenceRowsOnce(rows: seq<EvidenceRow>, postRef: string)
    requires UniqueBy(rows, EvidenceRef)
    ensures UniqueBy(EvidenceOf(rows, postRef), EvidenceRef)
  {
    if rows != [] {
      var init, last := rows[..|rows| - 1], rows[|rows| - 1];
      assert UniqueBy(init, EvidenceRef) by {
        forall i, j | 0 <= i < j < |init| ensures EvidenceRef(init[i]) != EvidenceRef(init[j]) {
          assert EvidenceRef(rows[i]) != EvidenceRef(rows[j]);
        }
      }
      EvidenceRowsOnce(init, postRef);
      EvidenceOfScan(init, postRef);
      var before := EvidenceOf(init, postRef);
      forall k | 0 <= k < |before| ensures EvidenceRef(before[k]) != EvidenceRef(last) {
        assert before[k] in before && before[k] in init;
        var i :| 0 <= i < |init| && init[i] == before[k];
        assert EvidenceRef(rows[i]) != EvidenceRef(rows[|rows| - 1]);
      }
    }
  }
}
