/**
  The frozen graph of a report fixture: its validation (`InvestigationFixture.validate_graph`) and the
  indexes built over it (`InvestigationRepository`).
*/
module FrozenGraph {
  import opened Wrappers
  import opened Sorting
  import N = Navigation

  datatype Case = Case(id: string, position: int, members: seq<string>)

  datatype Post = Post(id: string, revisionId: string, findingId: string)

  datatype Finding = Finding(id: string, postId: string, postRevisionId: string, decision: string, riskLevel: string)

  datatype Evidence = Evidence(id: string, findingId: string, parentPost: string, parentRevision: string, kind: string, ordinal: nat)

  /** The statistics that a report version states of itself. */
  datatype Statistics = Statistics(cases: int, posts: int, findings: int, evidence: int,
                                   decisions: map<string, int>, levels: map<string, int>, kinds: map<string, int>)

  datatype Provenance = Provenance(snapshotId: string, counts: map<string, int>)

  datatype Fixture = Fixture(snapshotId: string, reportSnapshotId: string, reportId: string,
                             postIds: seq<string>, revisionIds: seq<string>, findingIds: seq<string>, evidenceIds: seq<string>,
                             caseIds: seq<string>, cases: seq<Case>, posts: seq<Post>, findings: seq<Finding>, evidence: seq<Evidence>,
                             statistics: Statistics, provenance: Provenance)

  const CaseId: Case -> string := (c: Case) => c.id
  const PostId: Post -> string := (p: Post) => p.id
  const PostRevision: Post -> string := (p: Post) => p.revisionId
  const FindingId: Finding -> string := (f: Finding) => f.id
  const EvidenceId: Evidence -> string := (e: Evidence) => e.id
  const FindingDecision: Finding -> string := (f: Finding) => f.decision
  const FindingLevel: Finding -> string := (f: Finding) => f.riskLevel
  const EvidenceKind: Evidence -> string := (e: Evidence) => e.kind
  const Itself: string -> string := (s: string) => s

  // ---- the validation ----

  /** `sorted` by position, equal positions in their old order. */
  function InsertCase(c: Case, s: seq<Case>): seq<Case> {
    if s == [] || c.position <= s[0].position then [c] + s else [s[0]] + InsertCase(c, s[1..])
  }

  function SortCases(cases: seq<Case>): seq<Case> {
    if cases == [] then [] else InsertCase(cases[0], SortCases(cases[1..]))
  }

  function CaseIds(cases: seq<Case>): seq<string> {
    seq(|cases|, i requires 0 <= i < |cases| => cases[i].id)
  }

  /** All members of all cases. */
  function Reported(cases: seq<Case>): seq<string> {
    if cases == [] then [] else Reported(cases[..|cases| - 1]) + cases[|cases| - 1].members
  }

  predicate PostOwned(fx: Fixture, p: Post) {
    exists f | f in fx.findings :: f.id == p.findingId && f.postId == p.id && f.postRevisionId == p.revisionId
  }

  predicate EvidenceOwned(fx: Fixture, e: Evidence) {
    exists f, p | f in fx.findings && p in fx.posts ::
      f.id == e.findingId && p.id == e.parentPost && f.postId == p.id && p.revisionId == e.parentRevision
  }

  function OrdinalsOf(evidence: seq<Evidence>, postId: string): seq<nat> {
    if evidence == [] then []
    else (if evidence[0].parentPost == postId then [evidence[0].ordinal] else []) + OrdinalsOf(evidence[1..], postId)
  }

  function UpTo(n: nat): seq<nat> {
    seq(n, i requires i >= 0 => i + 1)
  }

  /** `sorted(ordinals) == list(range(1, len(ordinals) + 1))`. */
  predicate Contiguous(ordinals: seq<nat>) {
    multiset(ordinals) == multiset(UpTo(|ordinals|))
  }

  ghost predicate IdsOk(fx: Fixture) {
    && UniqueBy(fx.cases, CaseId) && UniqueBy(fx.posts, PostId) && UniqueBy(fx.posts, PostRevision)
    && UniqueBy(fx.findings, FindingId) && UniqueBy(fx.evidence, EvidenceId)
  }

  predicate MembershipOk(fx: Fixture) {
    && fx.reportSnapshotId == fx.snapshotId
    && fx.caseIds == CaseIds(SortCases(fx.cases))
    && Elements(fx.postIds) == KeySet(fx.posts, PostId)
    && Elements(fx.revisionIds) == KeySet(fx.posts, PostRevision)
    && Elements(fx.findingIds) == KeySet(fx.findings, FindingId)
    && Elements(fx.evidenceIds) == KeySet(fx.evidence, EvidenceId)
  }

  // ---- the field types and the statistics ----

  const DECISIONS: set<string> := {"pass", "review", "reject"}
  const LEVELS: set<string> := {"none", "low", "medium", "high"}
  const KINDS: set<string> := {"text", "comment", "asr", "ocr", "keyframe"}

  /** What the types of the fields admit. */
  predicate TypesOk(fx: Fixture) {
    && (forall c | c in fx.cases :: c.position >= 1)
    && (forall f | f in fx.findings :: f.decision in DECISIONS && f.riskLevel in LEVELS)
    && (forall e | e in fx.evidence :: e.kind in KINDS)
  }

  function Column<T>(s: seq<T>, f: T -> string): seq<string> {
    seq(|s|, i requires 0 <= i < |s| => f(s[i]))
  }

  /** `Counter`: how often each key occurs; what does not occur has no entry. */
  function Counted(keys: seq<string>): map<string, int> {
    map k | k in keys :: multiset(keys)[k]
  }

  function Bump(m: map<string, int>, key: string): map<string, int> {
    m[key := (if key in m then m[key] else 0) + 1]
  }

  lemma CountedSnoc(keys: seq<string>, key: string)
    ensures Counted(keys + [key]) == Bump(Counted(keys), key)
  {
    assert forall k :: k in keys <==> multiset(keys)[k] > 0;
    assert multiset(keys + [key]) == multiset(keys) + multiset{key};
    forall k ensures k in Counted(keys + [key]) <==> k in Bump(Counted(keys), key) {
      assert k in keys + [key] <==> k in keys || k == key;
    }
    if key !in keys {
      assert multiset(keys)[key] == 0;
    }
  }

  /** The counting loop of `Counter`. */
  method CountKeys(keys: seq<string>) returns (counts: map<string, int>)
    ensures counts == Counted(keys)
  {
    counts := map[];
    assert Counted(keys[..0]) == map[];
    for i := 0 to |keys|
      invariant counts == Counted(keys[..i])
    {
      assert keys[..i + 1] == keys[..i] + [keys[i]];
      CountedSnoc(keys[..i], keys[i]);
      counts := Bump(counts, keys[i]);
    }
    assert keys[..|keys|] == keys;
  }

  /** The statistics that the graph has. */
  function StatisticsOf(fx: Fixture): Statistics {
    Statistics(|KeySet(fx.cases, CaseId)|, |KeySet(fx.posts, PostId)|, |KeySet(fx.findings, FindingId)|, |fx.evidence|,
               Counted(Column(fx.findings, FindingDecision)), Counted(Column(fx.findings, FindingLevel)),
               Counted(Column(fx.evidence, EvidenceKind)))
  }

  predicate ProvenanceOk(fx: Fixture) {
    && fx.provenance.snapshotId == fx.snapshotId
    && fx.provenance.counts == map["posts" := |KeySet(fx.posts, PostId)|, "findings" := |KeySet(fx.findings, FindingId)|,
                                   "evidence" := |fx.evidence|]
  }

  /** The graph of a valid fixture. */
  ghost predicate ValidGraph(fx: Fixture) {
    && TypesOk(fx) && IdsOk(fx) && MembershipOk(fx)
    && (forall p <- Reported(fx.cases) :: p in KeySet(fx.posts, PostId))
    && UniqueBy(Reported(fx.cases), Itself)
    && (forall p <- fx.posts :: PostOwned(fx, p))
    && (forall e <- fx.evidence :: EvidenceOwned(fx, e))
    && (forall e <- fx.evidence :: Contiguous(OrdinalsOf(fx.evidence, e.parentPost)))
    && fx.statistics == StatisticsOf(fx) && ProvenanceOk(fx)
  }

  method CheckIds(fx: Fixture) returns (ok: bool)
    ensures ok <==> IdsOk(fx)
  {
    hide UniqueBy;
    var cases := AllDistinct(fx.cases, CaseId);
    var posts := AllDistinct(fx.posts, PostId);
    var revisions := AllDistinct(fx.posts, PostRevision);
    var findings := AllDistinct(fx.findings, FindingId);
    var evidence := AllDistinct(fx.evidence, EvidenceId);
    ok := cases && posts && revisions && findings && evidence;
  }

  /** The loop that collects the posts of all cases. */
  method CollectReported(fx: Fixture) returns (reported: Option<seq<string>>)
    ensures reported.Some? ==> reported.value == Reported(fx.cases)
    ensures reported.Some? <==> forall p <- Reported(fx.cases) :: p in KeySet(fx.posts, PostId)
  {
    var collected := [];
    for i := 0 to |fx.cases|
      invariant collected == Reported(fx.cases[..i])
      invariant forall p <- collected :: p in KeySet(fx.posts, PostId)
    {
      assert fx.cases[..i + 1][..i] == fx.cases[..i];
      var members := fx.cases[i].members;
      for j := 0 to |members|
        invariant collected == Reported(fx.cases[..i]) + members[..j]
        invariant forall p <- collected :: p in KeySet(fx.posts, PostId)
      {
        if members[j] !in KeySet(fx.posts, PostId) {
          assert members[j] in Reported(fx.cases[..i + 1]);
          ReportedPrefix(fx.cases, i + 1);
          return None;
        }
        collected := collected + [members[j]];
      }
      assert members[..|members|] == members;
    }
    assert fx.cases[..|fx.cases|] == fx.cases;
    return Some(collected);
  }

  lemma {:induction false} ReportedPrefix(cases: seq<Case>, i: nat)
    requires i <= |cases|
    ensures forall p <- Reported(cases[..i]) :: p in Reported(cases)
    decreases |cases|
  {
    if i < |cases| {
      assert cases[..|cases| - 1][..i] == cases[..i];
      ReportedPrefix(cases[..|cases| - 1], i);
    } else {
      assert cases[..i] == cases;
    }
  }

  /** `validate_graph`. */
  method ValidateGraph(fx: Fixture) returns (ok: bool)
    ensures ok <==> ValidGraph(fx)
  {
    hide IdsOk, MembershipOk, PostOwned, EvidenceOwned, Contiguous, UniqueBy, Reported, TypesOk, ProvenanceOk, Column, Counted;
    if !TypesOk(fx) {
      return false;
    }
    ok := CheckIds(fx);
    if !ok || !MembershipOk(fx) {
      return false;
    }
    var reported := CollectReported(fx);
    if reported.None? {
      return false;
    }
    ok := AllDistinct(reported.value, Itself);
    ok := ok && (forall p | p in fx.posts :: PostOwned(fx, p))
       && (forall e | e in fx.evidence :: EvidenceOwned(fx, e))
       && (forall e | e in fx.evidence :: Contiguous(OrdinalsOf(fx.evidence, e.parentPost)));
    var decisions := CountKeys(Column(fx.findings, FindingDecision));
    var levels := CountKeys(Column(fx.findings, FindingLevel));
    var kinds := CountKeys(Column(fx.evidence, EvidenceKind));
    var expected := Statistics(|KeySet(fx.cases, CaseId)|, |KeySet(fx.posts, PostId)|, |KeySet(fx.findings, FindingId)|,
                               |fx.evidence|, decisions, levels, kinds);
    ok := ok && fx.statistics == expected && ProvenanceOk(fx);
  }

  // ---- the indexes ----

  function CaseOf(cases: seq<Case>, id: string): (c: Case)
    requires id in KeySet(cases, CaseId)
    ensures c in cases && c.id == id
  {
    if cases[0].id == id then cases[0]
    else
      assert cases == [cases[0]] + cases[1..];
      assert id in KeySet(cases[1..], CaseId);
      CaseOf(cases[1..], id)
  }

  function PostOf(posts: seq<Post>, id: string): (p: Post)
    requires id in KeySet(posts, PostId)
    ensures p in posts && p.id == id
  {
    if posts[0].id == id then posts[0]
    else
      assert posts == [posts[0]] + posts[1..];
      assert id in KeySet(posts[1..], PostId);
      PostOf(posts[1..], id)
  }

  function EvidenceOf(evidence: seq<Evidence>, id: string): (e: Evidence)
    requires id in KeySet(evidence, EvidenceId)
    ensures e in evidence && e.id == id
  {
    if evidence[0].id == id then evidence[0]
    else
      assert evidence == [evidence[0]] + evidence[1..];
      assert id in KeySet(evidence[1..], EvidenceId);
      EvidenceOf(evidence[1..], id)
  }

  /** `_case_by_post`: the last case that lists a post. */
  function CaseByPost(cases: seq<Case>): map<string, string> {
    if cases == [] then map[]
    else
      var last := cases[|cases| - 1];
      CaseByPost(cases[..|cases| - 1]) + map p | p in Elements(last.members) :: last.id
  }

  lemma {:induction false} CaseByPostListsIt(cases: seq<Case>, p: string)
    ensures p in CaseByPost(cases) <==> exists c <- cases :: p in c.members
    ensures p in CaseByPost(cases) ==> exists c <- cases :: p in c.members && c.id == CaseByPost(cases)[p]
    decreases |cases|
  {
    if cases != [] {
      var init, last := cases[..|cases| - 1], cases[|cases| - 1];
      CaseByPostListsIt(init, p);
      assert cases == init + [last];
    }
  }

  lemma {:induction false} ReportedOnce(cases: seq<Case>, c: Case, d: Case, p: string)
    requires UniqueBy(Reported(cases), Itself)
    requires c in cases && d in cases && p in c.members && p in d.members
    ensures c == d
    decreases |cases|
  {
    var init, last := cases[..|cases| - 1], cases[|cases| - 1];
    var before := Reported(init);
    assert cases == init + [last] && Reported(cases) == before + last.members;
    assert UniqueBy(before, Itself) by {
      forall i, j | 0 <= i < j < |before| ensures Itself(before[i]) != Itself(before[j]) {
        assert Itself(Reported(cases)[i]) != Itself(Reported(cases)[j]);
      }
    }
    NotTwice(before, last.members, p);
    if c in init {
      MemberIsReported(init, c, p);
    }
    if d in init {
      MemberIsReported(init, d, p);
    }
    if c in init && d in init {
      ReportedOnce(init, c, d, p);
    }
  }

  lemma NotTwice(a: seq<string>, b: seq<string>, p: string)
    requires UniqueBy(a + b, Itself)
    ensures !(p in a && p in b)
  {
    forall i, j | 0 <= i < |a| && 0 <= j < |b| ensures a[i] != b[j] {
      assert Itself((a + b)[i]) != Itself((a + b)[|a| + j]);
    }
  }

  lemma {:induction false} MemberIsReported(cases: seq<Case>, c: Case, p: string)
    requires c in cases && p in c.members
    ensures p in Reported(cases)
    decreases |cases|
  {
    var init, last := cases[..|cases| - 1], cases[|cases| - 1];
    assert cases == init + [last];
    if c in init {
      MemberIsReported(init, c, p);
    }
  }

  /** `case_for_post` names the one case that lists the post: the index agrees with a scan. */
  lemma CaseIndexAgrees(fx: Fixture, c: Case, p: string)
    requires ValidGraph(fx) && c in fx.cases && p in c.members
    ensures p in CaseByPost(fx.cases) && CaseByPost(fx.cases)[p] == c.id
  {
    hide IdsOk, MembershipOk, PostOwned, EvidenceOwned, Contiguous, Reported, UniqueBy;
    CaseByPostListsIt(fx.cases, p);
    var d :| d in fx.cases && p in d.members && d.id == CaseByPost(fx.cases)[p];
    ReportedOnce(fx.cases, c, d, p);
  }

  // ---- evidence in order ----

  function EvidenceFor(evidence: seq<Evidence>, postId: string): seq<Evidence> {
    if evidence == [] then [] else (if evidence[0].parentPost == postId then [evidence[0]] else []) + EvidenceFor(evidence[1..], postId)
  }

  /** `sorted` by ordinal, equal ordinals in their old order. */
  function InsertEvidence(e: Evidence, s: seq<Evidence>): seq<Evidence> {
    if s == [] || e.ordinal <= s[0].ordinal then [e] + s else [s[0]] + InsertEvidence(e, s[1..])
  }

  function SortEvidence(s: seq<Evidence>): seq<Evidence> {
    if s == [] then [] else InsertEvidence(s[0], SortEvidence(s[1..]))
  }

  ghost predicate ByOrdinal(s: seq<Evidence>) {
    forall i, j | 0 <= i < j < |s| :: s[i].ordinal <= s[j].ordinal
  }

  lemma {:induction false} InsertKeepsEvidence(e: Evidence, s: seq<Evidence>)
    ensures multiset(InsertEvidence(e, s)) == multiset(s) + multiset{e}
  {
    if s != [] && e.ordinal > s[0].ordinal {
      InsertKeepsEvidence(e, s[1..]);
      assert s == [s[0]] + s[1..];
    }
  }

  lemma OrderedBehind(first: Evidence, rest: seq<Evidence>)
    requires ByOrdinal(rest) && forall x <- rest :: first.ordinal <= x.ordinal
    ensures ByOrdinal([first] + rest)
  {
  }

  lemma {:induction false} InsertSorts(e: Evidence, s: seq<Evidence>)
    requires ByOrdinal(s)
    ensures ByOrdinal(InsertEvidence(e, s)) && multiset(InsertEvidence(e, s)) == multiset(s) + multiset{e}
  {
    InsertKeepsEvidence(e, s);
    if s != [] && e.ordinal > s[0].ordinal {
      InsertSorts(e, s[1..]);
      var rest := InsertEvidence(e, s[1..]);
      forall x | x in rest ensures s[0].ordinal <= x.ordinal {
        assert x in multiset(rest);
        assert x == e || x in s[1..];
      }
      OrderedBehind(s[0], rest);
    } else {
      OrderedBehind(e, s);
    }
  }

  lemma {:induction false} SortSorts(s: seq<Evidence>)
    ensures ByOrdinal(SortEvidence(s)) && multiset(SortEvidence(s)) == multiset(s)
  {
    if s != [] {
      SortSorts(s[1..]);
      InsertSorts(s[0], SortEvidence(s[1..]));
      assert s == [s[0]] + s[1..];
    }
  }

  lemma {:induction false} OrdinalsAre(evidence: seq<Evidence>, postId: string)
    ensures |OrdinalsOf(evidence, postId)| == |EvidenceFor(evidence, postId)|
    ensures forall i | 0 <= i < |EvidenceFor(evidence, postId)| :: OrdinalsOf(evidence, postId)[i] == EvidenceFor(evidence, postId)[i].ordinal
    ensures forall e :: e in EvidenceFor(evidence, postId) <==> e in evidence && e.parentPost == postId
  {
    if evidence != [] {
      OrdinalsAre(evidence[1..], postId);
      assert evidence == [evidence[0]] + evidence[1..];
    }
  }

  ghost predicate Ascending(s: seq<nat>) {
    forall i, j | 0 <= i < j < |s| :: s[i] <= s[j]
  }

  lemma TakeOut<T>(s: seq<T>, j: nat)
    requires j < |s|
    ensures multiset(s) == multiset(s[..j] + s[j + 1..]) + multiset{s[j]}
    ensures multiset(s) - multiset{s[j]} == multiset(s[..j] + s[j + 1..])
  {
    assert s == s[..j] + [s[j]] + s[j + 1..];
  }

  lemma HeadIsLeast(a: seq<nat>, x: nat)
    requires a != [] && Ascending(a) && x in multiset(a)
    ensures a[0] <= x
  {
    assert x in a;
    var i :| 0 <= i < |a| && a[i] == x;
  }

  lemma TailAscends(a: seq<nat>)
    requires a != [] && Ascending(a)
    ensures Ascending(a[1..])
  {
  }

  lemma TailsAgree(a: seq<nat>, b: seq<nat>)
    requires multiset(a) == multiset(b) && a != [] && b != [] && a[0] == b[0]
    ensures multiset(a[1..]) == multiset(b[1..])
  {
    TakeFirst(a);
    TakeFirst(b);
  }

  lemma TakeFirst(s: seq<nat>)
    requires s != []
    ensures multiset(s) - multiset{s[0]} == multiset(s[1..])
  {
    TakeOut(s, 0);
    assert s[..0] + s[1..] == s[1..];
  }

  lemma SameSize(a: seq<nat>, b: seq<nat>)
    requires multiset(a) == multiset(b)
    ensures |a| == |b|
  {
    assert |a| == |multiset(a)| && |b| == |multiset(b)|;
  }

  lemma HeadsAgree(a: seq<nat>, b: seq<nat>)
    requires multiset(a) == multiset(b) && a != [] && b != [] && Ascending(a) && Ascending(b)
    ensures a[0] == b[0]
  {
    hide Ascending;
    assert a[0] in multiset(a) && b[0] in multiset(b);
    HeadIsLeast(a, b[0]);
    HeadIsLeast(b, a[0]);
  }

  lemma {:induction false} AscendingIsUnique(a: seq<nat>, b: seq<nat>)
    requires multiset(a) == multiset(b) && Ascending(a) && Ascending(b)
    ensures a == b
    decreases |a|
  {
    hide Ascending;
    SameSize(a, b);
    if a != [] {
      HeadsAgree(a, b);
      TailsAgree(a, b);
      TailAscends(a);
      TailAscends(b);
      AscendingIsUnique(a[1..], b[1..]);
      assert a == [a[0]] + a[1..] && b == [b[0]] + b[1..];
    }
  }

  function OrdinalSeq(s: seq<Evidence>): seq<nat> {
    seq(|s|, i requires 0 <= i < |s| => s[i].ordinal)
  }

  /** Sorted by ordinal, the evidence of a post is numbered one, two, three, without a gap. */
  lemma EvidenceIsNumbered(fx: Fixture, postId: string, sorted: seq<Evidence>, k: nat)
    requires ValidGraph(fx) && multiset(sorted) == multiset(EvidenceFor(fx.evidence, postId))
    requires ByOrdinal(sorted) && k < |sorted|
    ensures sorted[k].ordinal == k + 1
  {
    hide EvidenceFor, OrdinalsOf, Contiguous;
    var items := EvidenceFor(fx.evidence, postId);
    OrdinalsAre(fx.evidence, postId);
    assert sorted[k] in multiset(items);
    assert items != [] && items[0] in fx.evidence && items[0].parentPost == postId;
    assert Contiguous(OrdinalsOf(fx.evidence, postId));
    hide ValidGraph;
    assert OrdinalSeq(items) == OrdinalsOf(fx.evidence, postId);
    NumberedFromOne(sorted, items, k);
  }

  lemma NumberedFromOne(sorted: seq<Evidence>, items: seq<Evidence>, k: nat)
    requires multiset(sorted) == multiset(items) && Contiguous(OrdinalSeq(items)) && k < |sorted|
    requires forall i, j | 0 <= i < j < |sorted| :: sorted[i].ordinal <= sorted[j].ordinal
    ensures sorted[k].ordinal == k + 1
  {
    SameOrdinals(sorted, items);
    var ordinals, numbers := OrdinalSeq(sorted), UpTo(|items|);
    assert ordinals[k] == sorted[k].ordinal;
    assert Ascending(ordinals) && Ascending(numbers);
    AscendingIsUnique(ordinals, numbers);
  }

  function Without<T>(s: seq<T>, j: nat): seq<T>
    requires j < |s|
  {
    s[..j] + s[j + 1..]
  }

  lemma OrdinalsWithout(s: seq<Evidence>, j: nat)
    requires j < |s|
    ensures multiset(OrdinalSeq(s)) == multiset(OrdinalSeq(Without(s, j))) + multiset{s[j].ordinal}
  {
    TakeOut(OrdinalSeq(s), j);
    assert OrdinalSeq(s)[..j] + OrdinalSeq(s)[j + 1..] == OrdinalSeq(Without(s, j));
  }

  lemma SameRest(a: seq<Evidence>, b: seq<Evidence>) returns (j: nat)
    requires multiset(a) == multiset(b) && a != []
    ensures j < |b| && b[j] == a[0] && multiset(Without(a, 0)) == multiset(Without(b, j))
  {
    assert a[0] in multiset(b);
    j :| 0 <= j < |b| && b[j] == a[0];
    TakeOut(a, 0);
    TakeOut(b, j);
  }

  lemma {:induction false} SameOrdinals(a: seq<Evidence>, b: seq<Evidence>)
    requires multiset(a) == multiset(b)
    ensures multiset(OrdinalSeq(a)) == multiset(OrdinalSeq(b))
    decreases |a|
  {
    hide OrdinalSeq;
    if a != [] {
      var j := SameRest(a, b);
      SameOrdinals(Without(a, 0), Without(b, j));
      OrdinalsWithout(a, 0);
      OrdinalsWithout(b, j);
    } else {
      EmptyIsEmpty(b);
    }
  }

  lemma EmptyIsEmpty(s: seq<Evidence>)
    requires multiset(s) == multiset{}
    ensures s == []
  {
    assert |s| == |multiset(s)|;
  }

  // ---- what navigation relies on ----

  function IdsFor(evidence: seq<Evidence>, postId: string): seq<string> {
    var s := SortEvidence(EvidenceFor(evidence, postId));
    seq(|s|, i requires 0 <= i < |s| => s[i].id)
  }

  /** `finding_for_post`, reduced to decision and risk level; an unknown finding has neither. */
  function AuditOf(findings: seq<Finding>, id: string): (string, string) {
    if findings == [] then ("", "")
    else if findings[0].id == id then (findings[0].decision, findings[0].riskLevel)
    else AuditOf(findings[1..], id)
  }

  function PostDataOf(fx: Fixture, p: Post): N.PostData {
    var audit := AuditOf(fx.findings, p.findingId);
    N.PostData(p.revisionId, audit.0, audit.1)
  }

  function EvidenceDataOf(e: Evidence): N.EvidenceData {
    N.EvidenceData(e.parentPost, e.parentRevision, e.kind)
  }

  /** The lookups of `InvestigationRepository`, as the navigation tools use them. */
  function NavigationOf(fx: Fixture): N.Report {
    N.Report(false, false, fx.reportId, fx.snapshotId, fx.caseIds,
             map c | c in KeySet(fx.cases, CaseId) :: CaseOf(fx.cases, c).members,
             CaseByPost(fx.cases),
             map p | p in KeySet(fx.posts, PostId) :: PostDataOf(fx, PostOf(fx.posts, p)),
             fx.postIds, Elements(fx.revisionIds), [], map[], [],
             map e | e in KeySet(fx.evidence, EvidenceId) ::
               EvidenceDataOf(EvidenceOf(fx.evidence, e)),
             Elements(fx.evidenceIds),
             map p | p in KeySet(fx.posts, PostId) :: IdsFor(fx.evidence, p),
             map[])
  }

  lemma {:induction false} SortKeepsCases(cases: seq<Case>)
    ensures forall c :: c in SortCases(cases) <==> c in cases
  {
    if cases != [] {
      SortKeepsCases(cases[1..]);
      InsertKeepsCases(cases[0], SortCases(cases[1..]));
      assert cases == [cases[0]] + cases[1..];
    }
  }

  lemma {:induction false} InsertKeepsCases(x: Case, s: seq<Case>)
    ensures forall c :: c in InsertCase(x, s) <==> c == x || c in s
  {
    if s != [] && x.position > s[0].position {
      InsertKeepsCases(x, s[1..]);
      assert s == [s[0]] + s[1..];
    }
  }

  lemma CasesAreOk(fx: Fixture)
    requires ValidGraph(fx)
    ensures N.CasesOk(NavigationOf(fx))
  {
    hide IdsOk, PostOwned, EvidenceOwned, Contiguous, Reported, UniqueBy, SortCases;
    var rep := NavigationOf(fx);
    SortKeepsCases(fx.cases);
    forall c | c in rep.caseIds
      ensures c in rep.cases && forall p <- rep.cases[c] :: p in rep.posts && p in rep.caseOfPost && rep.caseOfPost[p] == c
    {
      var sorted := SortCases(fx.cases);
      var i :| 0 <= i < |sorted| && sorted[i].id == c;
      assert sorted[i] in fx.cases && CaseId(sorted[i]) == c;
      var k := CaseOf(fx.cases, c);
      forall p | p in k.members ensures p in rep.posts && p in rep.caseOfPost && rep.caseOfPost[p] == c {
        CaseIndexAgrees(fx, k, p);
        MemberIsReported(fx.cases, k, p);
      }
    }
  }

  lemma ListedEvidence(fx: Fixture, p: string, id: string)
    requires ValidGraph(fx) && id in IdsFor(fx.evidence, p)
    ensures id in KeySet(fx.evidence, EvidenceId) && EvidenceOf(fx.evidence, id).parentPost == p
  {
    hide Contiguous, Reported, MembershipOk, PostOwned, EvidenceOwned, UniqueBy, EvidenceFor, SortEvidence, ByOrdinal;
    var items := SortEvidence(EvidenceFor(fx.evidence, p));
    SortSorts(EvidenceFor(fx.evidence, p));
    OrdinalsAre(fx.evidence, p);
    var i :| 0 <= i < |items| && items[i].id == id;
    var e := items[i];
    assert e in multiset(items) && EvidenceId(e) == id;
    KeyedAlike(fx.evidence, EvidenceId, e, EvidenceOf(fx.evidence, id));
  }

  lemma IdsAreListed(fx: Fixture)
    requires ValidGraph(fx)
    ensures Elements(fx.evidenceIds) == KeySet(fx.evidence, EvidenceId)
  {
  }

  lemma EvidenceIsOk(fx: Fixture)
    requires ValidGraph(fx)
    ensures N.EvidenceOk(NavigationOf(fx))
  {
    hide ValidGraph, CaseByPost, IdsFor, AuditOf, CaseOf;
    var rep := NavigationOf(fx);
    IdsAreListed(fx);
    forall id | id in rep.evidence
      ensures id in rep.evidenceIds && rep.evidence[id].parentPost in rep.posts
           && rep.evidence[id].parentRevision == rep.posts[rep.evidence[id].parentPost].revision
    {
      OwnedByItsPost(fx, EvidenceOf(fx.evidence, id));
    }
    forall p, id | p in rep.evidenceByPost && id in rep.evidenceByPost[p] ensures id in rep.evidence && rep.evidence[id].parentPost == p {
      ListedEvidence(fx, p, id);
    }
  }

  lemma OwnedByItsPost(fx: Fixture, e: Evidence)
    requires ValidGraph(fx) && e in fx.evidence
    ensures e.parentPost in KeySet(fx.posts, PostId) && PostOf(fx.posts, e.parentPost).revisionId == e.parentRevision
  {
    hide Contiguous, Reported, MembershipOk;
    assert EvidenceOwned(fx, e);
    var f, p :| f in fx.findings && p in fx.posts && f.id == e.findingId && p.id == e.parentPost && f.postId == p.id && p.revisionId == e.parentRevision;
    assert PostId(p) == e.parentPost;
    KeyedAlike(fx.posts, PostId, p, PostOf(fx.posts, e.parentPost));
  }

  lemma PostsAreOk(fx: Fixture)
    requires ValidGraph(fx)
    ensures N.PostsOk(NavigationOf(fx))
  {
    hide IdsOk, PostOwned, EvidenceOwned, Contiguous, Reported, SortCases, CaseByPost;
    assert forall p: Post :: PostRevision(p) == p.revisionId;
  }

  /** Every fixture that passes the validation has the relations that navigation relies on. */
  lemma ValidIsWellFormed(fx: Fixture)
    requires ValidGraph(fx)
    ensures N.WellFormed(NavigationOf(fx))
  {
    hide ValidGraph, N.PostsOk, N.CasesOk, N.EvidenceOk;
    PostsAreOk(fx);
    CasesAreOk(fx);
    EvidenceIsOk(fx);
  }

  /**
    The validation compares the snapshot's post ids as a set, so it does not exclude a repeated id:
    `ordered_posts` lists every post exactly once if and only if there are as many ids as posts.
  */
  lemma OrderedPostsListOnceIff(fx: Fixture)
    requires ValidGraph(fx)
    ensures Elements(fx.postIds) == KeySet(fx.posts, PostId)
    ensures UniqueBy(fx.postIds, Itself) <==> |fx.postIds| == |fx.posts|
  {
    hide PostOwned, EvidenceOwned, Contiguous, Reported;
    UniqueCount(fx.posts, PostId);
    ElementsAtMost(fx.postIds);
    assert NoDuplicates(fx.postIds) ==> UniqueBy(fx.postIds, Itself) by {
      assert forall x: string :: Itself(x) == x;
    }
    if UniqueBy(fx.postIds, Itself) {
      UniqueCount(fx.postIds, Itself);
      assert KeySet(fx.postIds, Itself) == Elements(fx.postIds);
    }
  }
}
