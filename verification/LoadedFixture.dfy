/**
  The fixture that the loader builds of a report (the end of `_load_report_graph`), and exactly when
  the fixture's own validation accepts it.
*/
module LoadedFixture {
  import opened Sorting
  import opened FrozenReport
  import F = FrozenGraph
  import Tokens

  /**
    What the loader takes over as it is: ids, payload hashes, evidence types, and the decision and risk
    counts of the manifest. A category shows the representative of the finding at its position.
  */
  datatype Naming = Naming(reportId: string, snapshotId: string, categoryIds: seq<string>,
                           revisionOf: string -> string, kindOf: string -> string,
                           decisionCounts: map<string, int>, levelCounts: map<string, int>)

  // ---- the parts of the fixture ----

  function Representative(memberships: seq<Membership>): string {
    if memberships == [] then "" else if memberships[0].isRepresentative then memberships[0].postRef else Representative(memberships[1..])
  }

  function RepresentativeAt(r: Report, i: nat): string {
    if i < |r.investigations| then Representative(r.investigations[i].memberships) else ""
  }

  function Cases(r: Report, n: Naming): seq<F.Case> {
    seq(|n.categoryIds|, i requires 0 <= i < |n.categoryIds| => F.Case(n.categoryIds[i], i + 1, [RepresentativeAt(r, i)]))
  }

  function Posts(r: Report, n: Naming): seq<F.Post> {
    seq(|r.posts|, i requires 0 <= i < |r.posts| => PostAt(r, n, r.posts[i].postRef))
  }

  function PostAt(r: Report, n: Naming, postRef: string): F.Post {
    F.Post(postRef, n.revisionOf(postRef), if postRef in r.findingByPost then r.findingByPost[postRef] else "")
  }

  function FindingAt(n: Naming, f: FindingRow): F.Finding {
    F.Finding(f.findingRef, f.postRef, n.revisionOf(f.postRef), DecisionOf(f), LevelOf(f))
  }

  function Findings(src: Source, n: Naming): seq<F.Finding> {
    seq(|src.findings|, i requires 0 <= i < |src.findings| => FindingAt(n, src.findings[i]))
  }

  function EvidenceAt(n: Naming, e: EvidenceRow, ordinal: nat): F.Evidence {
    F.Evidence(e.evidenceRef, e.findingRef, e.postRef, n.revisionOf(e.postRef), EvidenceType(n.kindOf(e.evidenceRef)), ordinal)
  }

  /** `enumerate(rows, 1)` over the evidence of one post. */
  function Numbered(n: Naming, rows: seq<EvidenceRow>): seq<F.Evidence> {
    seq(|rows|, i requires 0 <= i < |rows| => EvidenceAt(n, rows[i], i + 1))
  }

  /** The posts that have evidence, in the order in which the rows name them first. */
  function Keys(rows: seq<EvidenceRow>): seq<string> {
    if rows == [] then []
    else
      var before, last := Keys(rows[..|rows| - 1]), rows[|rows| - 1].postRef;
      if last in before then before else before + [last]
  }

  function Evidence(n: Naming, rows: seq<EvidenceRow>, keys: seq<string>): seq<F.Evidence> {
    if keys == [] then [] else Numbered(n, EvidenceOf(rows, keys[0])) + Evidence(n, rows, keys[1..])
  }

  function BumpAll(m: map<string, int>, kinds: seq<string>): map<string, int>
    decreases |kinds|
  {
    if kinds == [] then m else BumpAll(F.Bump(m, kinds[0]), kinds[1..])
  }

  /** `evidence_type_counts`, as the loop over the evidence of every post raises it. */
  function KindCounts(n: Naming, rows: seq<EvidenceRow>, keys: seq<string>, m: map<string, int>): map<string, int>
    decreases |keys|
  {
    if keys == [] then m
    else KindCounts(n, rows, keys[1..], BumpAll(m, F.Column(Numbered(n, EvidenceOf(rows, keys[0])), F.EvidenceKind)))
  }

  function FixtureOf(src: Source, r: Report, n: Naming): F.Fixture {
    F.Fixture(n.snapshotId, n.snapshotId, n.reportId, F.Column(r.posts, PostRef),
              seq(|r.posts|, i requires 0 <= i < |r.posts| => n.revisionOf(r.posts[i].postRef)),
              F.Column(src.findings, FindingRef), F.Column(src.evidence, EvidenceRef), n.categoryIds,
              Cases(r, n), Posts(r, n), Findings(src, n), Evidence(n, src.evidence, Keys(src.evidence)),
              StatedOf(src, r, n),
              F.Provenance(n.snapshotId, map["posts" := |r.posts|, "findings" := |src.findings|,
                                             "evidence" := |Evidence(n, src.evidence, Keys(src.evidence))|]))
  }

  /** The statistics of the report version: computed, but for the decision and risk counts. */
  function StatedOf(src: Source, r: Report, n: Naming): F.Statistics {
    F.Statistics(|n.categoryIds|, |r.posts|, |src.findings|, |Evidence(n, src.evidence, Keys(src.evidence))|,
                 n.decisionCounts, n.levelCounts, KindCounts(n, src.evidence, Keys(src.evidence), map[]))
  }

  // ---- elements and keys ----

  lemma MapElements<T(!new), U(!new)>(s: seq<T>, f: T -> string, t: seq<U>, g: U -> string)
    requires |s| == |t| && forall i | 0 <= i < |s| :: f(s[i]) == g(t[i])
    ensures Elements(F.Column(s, f)) == KeySet(t, g)
    ensures UniqueBy(s, f) <==> UniqueBy(t, g)
  {
    forall x | x in F.Column(s, f) ensures x in KeySet(t, g) {
      var i :| 0 <= i < |s| && F.Column(s, f)[i] == x;
      assert t[i] in t && g(t[i]) == x;
    }
    forall x | x in KeySet(t, g) ensures x in F.Column(s, f) {
      var u :| u in t && g(u) == x;
      var i :| 0 <= i < |t| && t[i] == u;
      assert F.Column(s, f)[i] == x;
    }
    if UniqueBy(s, f) {
      forall i, j | 0 <= i < j < |t| ensures g(t[i]) != g(t[j]) {
        assert f(s[i]) != f(s[j]);
      }
    }
    if UniqueBy(t, g) {
      forall i, j | 0 <= i < j < |s| ensures f(s[i]) != f(s[j]) {
        assert g(t[i]) != g(t[j]);
      }
    }
  }

  // ---- evidence ----

  lemma {:induction false} KeysAre(rows: seq<EvidenceRow>)
    ensures forall p :: p in Keys(rows) <==> exists e <- rows :: e.postRef == p
    ensures UniqueBy(Keys(rows), Same)
  {
    if rows != [] {
      var init, last := rows[..|rows| - 1], rows[|rows| - 1];
      assert rows == init + [last];
      KeysAre(init);
    }
  }

  lemma {:induction false} EvidenceElements(n: Naming, rows: seq<EvidenceRow>, keys: seq<string>)
    ensures forall x :: x in Evidence(n, rows, keys) <==> exists p <- keys :: x in Numbered(n, EvidenceOf(rows, p))
  {
    if keys != [] {
      hide Numbered, EvidenceOf;
      var first, rest := Numbered(n, EvidenceOf(rows, keys[0])), Evidence(n, rows, keys[1..]);
      EvidenceElements(n, rows, keys[1..]);
      assert keys == [keys[0]] + keys[1..] && keys[0] in keys;
      forall x | x in Evidence(n, rows, keys) ensures exists p <- keys :: x in Numbered(n, EvidenceOf(rows, p)) {
        if x !in first {
          var p :| p in keys[1..] && x in Numbered(n, EvidenceOf(rows, p));
          assert p in keys;
        }
      }
      forall x, p | p in keys && x in Numbered(n, EvidenceOf(rows, p)) ensures x in Evidence(n, rows, keys) {
        assert p == keys[0] || p in keys[1..];
      }
    }
  }

  lemma NumberedElement(n: Naming, rows: seq<EvidenceRow>, p: string, x: F.Evidence) returns (row: EvidenceRow)
    requires x in Numbered(n, EvidenceOf(rows, p))
    ensures row in rows && row.postRef == p == x.parentPost && x == EvidenceAt(n, row, x.ordinal)
  {
    var s := EvidenceOf(rows, p);
    var i :| 0 <= i < |s| && Numbered(n, s)[i] == x;
    row := s[i];
    EvidenceOfScan(rows, p);
    assert row in s;
  }

  lemma OrdinalsStep(s: seq<F.Evidence>, p: string)
    ensures F.OrdinalsOf(s, p) ==
      if s == [] then [] else (if s[0].parentPost == p then [s[0].ordinal] else []) + F.OrdinalsOf(s[1..], p)
  {
  }

  lemma {:induction false} OrdinalsConcat(a: seq<F.Evidence>, b: seq<F.Evidence>, p: string)
    ensures F.OrdinalsOf(a + b, p) == F.OrdinalsOf(a, p) + F.OrdinalsOf(b, p)
  {
    hide F.OrdinalsOf;
    OrdinalsStep(a, p);
    if a == [] {
      assert a + b == b;
    } else {
      OrdinalsConcat(a[1..], b, p);
      OrdinalsStep(a + b, p);
      assert (a + b)[1..] == a[1..] + b && (a + b)[0] == a[0];
    }
  }

  lemma {:induction false} OrdinalsOfOthers(s: seq<F.Evidence>, p: string)
    requires forall x <- s :: x.parentPost != p
    ensures F.OrdinalsOf(s, p) == []
  {
    if s != [] {
      OrdinalsOfOthers(s[1..], p);
    }
  }

  lemma {:induction false} OrdinalsOfOwn(s: seq<F.Evidence>, p: string)
    requires forall x <- s :: x.parentPost == p
    ensures |F.OrdinalsOf(s, p)| == |s| && forall i | 0 <= i < |s| :: F.OrdinalsOf(s, p)[i] == s[i].ordinal
  {
    if s != [] {
      OrdinalsOfOwn(s[1..], p);
    }
  }

  lemma NumberedOrdinals(n: Naming, rows: seq<EvidenceRow>, key: string, p: string)
    ensures F.OrdinalsOf(Numbered(n, EvidenceOf(rows, key)), p) ==
      if key == p then F.UpTo(|EvidenceOf(rows, p)|) else []
  {
    var s := Numbered(n, EvidenceOf(rows, key));
    forall x | x in s ensures x.parentPost == key {
      var row := NumberedElement(n, rows, key, x);
    }
    if key == p {
      OrdinalsOfOwn(s, p);
    } else {
      OrdinalsOfOthers(s, p);
    }
  }

  lemma {:induction false} EvidenceOrdinals(n: Naming, rows: seq<EvidenceRow>, keys: seq<string>, p: string)
    requires UniqueBy(keys, Same)
    ensures F.OrdinalsOf(Evidence(n, rows, keys), p) == if p in keys then F.UpTo(|EvidenceOf(rows, p)|) else []
  {
    if keys != [] {
      hide Numbered, EvidenceOf, F.UpTo, F.OrdinalsOf;
      var rest := keys[1..];
      assert keys == [keys[0]] + rest;
      forall x | x in rest ensures x != keys[0] {
        var i :| 0 <= i < |rest| && rest[i] == x;
        assert Same(keys[0]) != Same(keys[i + 1]);
      }
      EvidenceOrdinals(n, rows, rest, p);
      OrdinalsConcat(Numbered(n, EvidenceOf(rows, keys[0])), Evidence(n, rows, rest), p);
      NumberedOrdinals(n, rows, keys[0], p);
    } else {
      assert F.OrdinalsOf([], p) == [];
    }
  }

  lemma EvidenceIsContiguous(src: Source, r: Report, n: Naming, p: string)
    ensures F.Contiguous(F.OrdinalsOf(FixtureOf(src, r, n).evidence, p))
  {
    hide EvidenceOf, Numbered, Evidence;
    KeysAre(src.evidence);
    EvidenceOrdinals(n, src.evidence, Keys(src.evidence), p);
    var ordinals := F.OrdinalsOf(FixtureOf(src, r, n).evidence, p);
    assert ordinals == F.UpTo(|ordinals|);
  }

  lemma NumberedOnce(n: Naming, rows: seq<EvidenceRow>, p: string)
    requires UniqueBy(rows, EvidenceRef)
    ensures UniqueBy(Numbered(n, EvidenceOf(rows, p)), F.EvidenceId)
  {
    hide EvidenceOf;
    EvidenceRowsOnce(rows, p);
    var s := EvidenceOf(rows, p);
    forall i, j | 0 <= i < j < |s| ensures F.EvidenceId(Numbered(n, s)[i]) != F.EvidenceId(Numbered(n, s)[j]) {
      assert EvidenceRef(s[i]) != EvidenceRef(s[j]);
    }
  }

  lemma UniqueTogether<T(!new), K(!new)>(a: seq<T>, b: seq<T>, keyOf: T -> K)
    requires UniqueBy(a, keyOf) && UniqueBy(b, keyOf) && forall x, y | x in a && y in b :: keyOf(x) != keyOf(y)
    ensures UniqueBy(a + b, keyOf)
  {
    var s := a + b;
    forall i, j | 0 <= i < j < |s| ensures keyOf(s[i]) != keyOf(s[j]) {
      if j < |a| {
        assert keyOf(a[i]) != keyOf(a[j]);
      } else if i >= |a| {
        assert keyOf(b[i - |a|]) != keyOf(b[j - |a|]);
      } else {
        assert a[i] in a && b[j - |a|] in b;
      }
    }
  }

  lemma {:induction false} EvidenceOnce(n: Naming, rows: seq<EvidenceRow>, keys: seq<string>)
    requires UniqueBy(rows, EvidenceRef) && UniqueBy(keys, Same)
    ensures UniqueBy(Evidence(n, rows, keys), F.EvidenceId)
  {
    if keys != [] {
      hide Numbered, EvidenceOf;
      var rest := keys[1..];
      forall i, j | 0 <= i < j < |rest| ensures Same(rest[i]) != Same(rest[j]) {
        assert Same(keys[i + 1]) != Same(keys[j + 1]);
      }
      EvidenceOnce(n, rows, rest);
      NumberedOnce(n, rows, keys[0]);
      EvidenceElements(n, rows, rest);
      forall x, y | x in Numbered(n, EvidenceOf(rows, keys[0])) && y in Evidence(n, rows, rest)
        ensures F.EvidenceId(x) != F.EvidenceId(y)
      {
        var p :| p in rest && y in Numbered(n, EvidenceOf(rows, p));
        var i :| 0 <= i < |rest| && rest[i] == p;
        assert Same(keys[0]) != Same(keys[i + 1]);
        var a := NumberedElement(n, rows, keys[0], x);
        var b := NumberedElement(n, rows, p, y);
        assert EvidenceRef(a) == x.id && EvidenceRef(b) == y.id;
        if x.id == y.id {
          KeyedAlike(rows, EvidenceRef, a, b);
        }
      }
      UniqueTogether(Numbered(n, EvidenceOf(rows, keys[0])), Evidence(n, rows, rest), F.EvidenceId);
    }
  }

  lemma EvidenceIdsAre(n: Naming, rows: seq<EvidenceRow>)
    ensures KeySet(Evidence(n, rows, Keys(rows)), F.EvidenceId) == Elements(F.Column(rows, EvidenceRef))
  {
    hide Numbered, EvidenceOf, Evidence, Keys;
    var all := Evidence(n, rows, Keys(rows));
    KeysAre(rows);
    EvidenceElements(n, rows, Keys(rows));
    forall id | id in KeySet(all, F.EvidenceId) ensures id in F.Column(rows, EvidenceRef) {
      var x :| x in all && F.EvidenceId(x) == id;
      var p :| p in Keys(rows) && x in Numbered(n, EvidenceOf(rows, p));
      var row := NumberedElement(n, rows, p, x);
      var i :| 0 <= i < |rows| && rows[i] == row;
      assert F.Column(rows, EvidenceRef)[i] == id;
    }
    forall id | id in F.Column(rows, EvidenceRef) ensures id in KeySet(all, F.EvidenceId) {
      var i :| 0 <= i < |rows| && F.Column(rows, EvidenceRef)[i] == id;
      assert rows[i] in rows;
      var x := NumberedRow(n, rows, rows[i]);
      assert x in all && F.EvidenceId(x) == id;
    }
  }

  lemma NumberedRow(n: Naming, rows: seq<EvidenceRow>, row: EvidenceRow) returns (x: F.Evidence)
    requires row in rows
    ensures x in Numbered(n, EvidenceOf(rows, row.postRef)) && x.id == row.evidenceRef
  {
    EvidenceOfScan(rows, row.postRef);
    var s := EvidenceOf(rows, row.postRef);
    var i :| 0 <= i < |s| && s[i] == row;
    x := Numbered(n, s)[i];
  }

  // ---- cases ----

  lemma {:induction false} SortedCasesStay(cases: seq<F.Case>)
    requires forall i, j | 0 <= i < j < |cases| :: cases[i].position < cases[j].position
    ensures F.SortCases(cases) == cases
  {
    if cases != [] {
      SortedCasesStay(cases[1..]);
      assert cases == [cases[0]] + cases[1..];
      assert |cases| > 1 ==> cases[0].position < cases[1].position;
    }
  }

  lemma {:induction false} ReportedAre(cases: seq<F.Case>, shown: seq<string>)
    requires |cases| == |shown| && forall i | 0 <= i < |cases| :: cases[i].members == [shown[i]]
    ensures F.Reported(cases) == shown
  {
    if cases != [] {
      ReportedAre(cases[..|cases| - 1], shown[..|shown| - 1]);
      assert shown == shown[..|shown| - 1] + [shown[|shown| - 1]];
    }
  }

  lemma {:induction false} RepresentativeIsMember(memberships: seq<Membership>)
    requires Representatives(memberships) >= 1
    ensures exists m <- memberships :: m.isRepresentative && m.postRef == Representative(memberships)
  {
    if memberships != [] && !memberships[0].isRepresentative {
      FirstIsNone(memberships);
      RepresentativeIsMember(memberships[1..]);
      assert memberships == [memberships[0]] + memberships[1..];
    }
  }

  lemma {:induction false} FirstIsNone(memberships: seq<Membership>)
    requires memberships != [] && !memberships[0].isRepresentative
    ensures Representatives(memberships) == Representatives(memberships[1..])
    decreases |memberships|
  {
    var init := memberships[..|memberships| - 1];
    if init != [] {
      FirstIsNone(init);
      assert init[1..] == memberships[1..][..|memberships[1..]| - 1];
    }
  }

  // ---- the validation ----

  function Shown(r: Report, n: Naming): seq<string> {
    seq(|n.categoryIds|, i requires 0 <= i < |n.categoryIds| => RepresentativeAt(r, i))
  }

  lemma ShownArePosts(src: Source, r: Report, n: Naming)
    requires IsLoaded(src, r) && |n.categoryIds| <= |r.investigations|
    ensures forall p <- Shown(r, n) :: p in PostRefs(r.posts)
  {
    hide AfterLastColon, Representatives, Related, Covered, TemplateOk, StandaloneOk, IndexAgrees, IsIndex, Representative, PostRefs;
    forall i | 0 <= i < |n.categoryIds| ensures RepresentativeAt(r, i) in PostRefs(r.posts) {
      var row := r.investigations[i];
      assert InvestigationOk(row, i + 1, PostRefs(src.posts), r.findings, r.evidence);
      RepresentativeIsMember(row.memberships);
      var m :| m in row.memberships && m.postRef == Representative(row.memberships);
      assert MembershipOk(m, PostRefs(src.posts), r.findings, r.evidence);
    }
  }

  /** No two posts have the same payload hash. */
  ghost predicate RevisionsDiffer(r: Report, n: Naming) {
    UniqueBy(Posts(r, n), F.PostRevision)
  }

  lemma IdsAreOk(src: Source, r: Report, n: Naming)
    requires IsLoaded(src, r)
    ensures F.IdsOk(FixtureOf(src, r, n)) <==> RevisionsDiffer(r, n) && UniqueBy(n.categoryIds, Same)
  {
    hide InvestigationsOk, Covered, TemplateOk, StandaloneOk, IndexAgrees, IsIndex, EvidenceOf, Evidence, Keys, FrozenReport.EvidenceOwned;
    MapElements(r.posts, PostRef, Posts(r, n), F.PostId);
    MapElements(src.findings, FindingRef, Findings(src, n), F.FindingId);
    MapElements(n.categoryIds, Same, Cases(r, n), F.CaseId);
    KeysAre(src.evidence);
    EvidenceOnce(n, src.evidence, Keys(src.evidence));
  }

  lemma MembershipIsOk(src: Source, r: Report, n: Naming)
    ensures F.MembershipOk(FixtureOf(src, r, n))
  {
    hide Evidence, Keys, UniqueBy, Representative;
    var fx := FixtureOf(src, r, n);
    MapElements(r.posts, PostRef, fx.posts, F.PostId);
    MapElements(src.findings, FindingRef, fx.findings, F.FindingId);
    var revision := (p: PostRow) => n.revisionOf(p.postRef);
    MapElements(r.posts, revision, fx.posts, F.PostRevision);
    assert fx.revisionIds == F.Column(r.posts, revision);
    EvidenceIdsAre(n, src.evidence);
    SortedCasesStay(fx.cases);
    assert F.CaseIds(fx.cases) == n.categoryIds;
  }

  lemma PostsAreOwned(src: Source, r: Report, n: Naming)
    requires IsLoaded(src, r)
    ensures forall p <- FixtureOf(src, r, n).posts :: F.PostOwned(FixtureOf(src, r, n), p)
  {
    hide InvestigationsOk, Covered, TemplateOk, StandaloneOk, IndexAgrees, IsIndex, EvidenceOf, Evidence, Keys, FrozenReport.EvidenceOwned, UniqueBy;
    var fx := FixtureOf(src, r, n);
    forall p | p in fx.posts ensures F.PostOwned(fx, p) {
      var i :| 0 <= i < |r.posts| && fx.posts[i] == p;
      assert r.posts[i] in r.posts && p.id in r.findingByPost;
      var row :| row in src.findings && row.postRef == p.id;
      var j :| 0 <= j < |src.findings| && src.findings[j] == row;
      assert fx.findings[j] == FindingAt(n, row) && fx.findings[j] in fx.findings;
    }
  }

  lemma EvidenceIsOwned(src: Source, r: Report, n: Naming)
    requires IsLoaded(src, r)
    ensures forall e <- FixtureOf(src, r, n).evidence :: F.EvidenceOwned(FixtureOf(src, r, n), e)
  {
    hide InvestigationsOk, Covered, TemplateOk, StandaloneOk, IndexAgrees, IsIndex, EvidenceOf, Evidence, Keys, Numbered, UniqueBy;
    var fx := FixtureOf(src, r, n);
    EvidenceElements(n, src.evidence, Keys(src.evidence));
    forall e | e in fx.evidence ensures F.EvidenceOwned(fx, e) {
      var p :| p in Keys(src.evidence) && e in Numbered(n, FrozenReport.EvidenceOf(src.evidence, p));
      var row := NumberedElement(n, src.evidence, p, e);
      assert row.postRef in r.findingByPost && r.findingByPost[row.postRef] == row.findingRef;
      var f := OwnFinding(src, r, row.postRef);
      var j :| 0 <= j < |src.findings| && src.findings[j] == f;
      assert fx.findings[j] == FindingAt(n, f) && fx.findings[j] in fx.findings;
      var post :| post in r.posts && post.postRef == p;
      var k :| 0 <= k < |r.posts| && r.posts[k] == post;
      assert fx.posts[k] == PostAt(r, n, p) && fx.posts[k] in fx.posts;
    }
  }

  lemma OwnFinding(src: Source, r: Report, postRef: string) returns (f: FindingRow)
    requires Related(src, r.findingByPost) && postRef in r.findingByPost
    ensures f in src.findings && f.postRef == postRef && f.findingRef == r.findingByPost[postRef]
  {
    f :| f in src.findings && f.postRef == postRef;
  }

  // ---- types and statistics ----

  const Decision: FindingRow -> string := (f: FindingRow) => DecisionOf(f)
  const Level: FindingRow -> string := (f: FindingRow) => LevelOf(f)

  /** Every audit finding has one of the known decisions and levels. */
  predicate FindingsKnown(src: Source) {
    forall f | f in src.findings :: DecisionOf(f) in F.DECISIONS && LevelOf(f) in F.LEVELS
  }

  /** The manifest counts the decisions and levels of the findings, without entries for what does not occur. */
  predicate CountsAgree(src: Source, n: Naming) {
    && n.decisionCounts == F.Counted(F.Column(src.findings, Decision))
    && n.levelCounts == F.Counted(F.Column(src.findings, Level))
  }

  lemma {:induction false} BumpAllCounts(before: seq<string>, kinds: seq<string>)
    ensures BumpAll(F.Counted(before), kinds) == F.Counted(before + kinds)
    decreases |kinds|
  {
    hide F.Counted, F.Bump;
    if kinds == [] {
      assert before + kinds == before;
    } else {
      F.CountedSnoc(before, kinds[0]);
      BumpAllCounts(before + [kinds[0]], kinds[1..]);
      assert before + [kinds[0]] + kinds[1..] == before + kinds;
    }
  }

  lemma ColumnConcat<T(!new)>(a: seq<T>, b: seq<T>, f: T -> string)
    ensures F.Column(a + b, f) == F.Column(a, f) + F.Column(b, f)
  {
  }

  /** The raised counts are those of all evidence. */
  lemma {:induction false} KindCountsAre(n: Naming, rows: seq<EvidenceRow>, keys: seq<string>, before: seq<string>)
    ensures KindCounts(n, rows, keys, F.Counted(before)) == F.Counted(before + F.Column(Evidence(n, rows, keys), F.EvidenceKind))
    decreases |keys|
  {
    hide F.Counted, F.Column, Numbered, EvidenceOf, BumpAll;
    if keys == [] {
      assert F.Column([], F.EvidenceKind) == [] by { NoColumn(); }
      assert before + [] == before;
    } else {
      var first, rest := Numbered(n, EvidenceOf(rows, keys[0])), Evidence(n, rows, keys[1..]);
      var kinds := F.Column(first, F.EvidenceKind);
      BumpAllCounts(before, kinds);
      KindCountsAre(n, rows, keys[1..], before + kinds);
      ColumnConcat(first, rest, F.EvidenceKind);
      assert before + kinds + F.Column(rest, F.EvidenceKind) == before + (kinds + F.Column(rest, F.EvidenceKind));
    }
  }

  lemma NoColumn()
    ensures F.Column<F.Evidence>([], F.EvidenceKind) == []
  {
  }

  lemma TypesAreOkIff(src: Source, r: Report, n: Naming)
    ensures F.TypesOk(FixtureOf(src, r, n)) <==> FindingsKnown(src)
  {
    hide Evidence, Keys, Representative, StatedOf, DecisionOf, LevelOf, EvidenceOf, Numbered;
    var fx := FixtureOf(src, r, n);
    EvidenceElements(n, src.evidence, Keys(src.evidence));
    forall e | e in fx.evidence ensures e.kind in F.KINDS {
      var p :| p in Keys(src.evidence) && e in Numbered(n, EvidenceOf(src.evidence, p));
      var row := NumberedElement(n, src.evidence, p, e);
    }
    if F.TypesOk(fx) {
      forall f | f in src.findings ensures DecisionOf(f) in F.DECISIONS && LevelOf(f) in F.LEVELS {
        var j :| 0 <= j < |src.findings| && src.findings[j] == f;
        assert fx.findings[j] in fx.findings && fx.findings[j] == FindingAt(n, f);
      }
    }
  }

  lemma FindingColumns(src: Source, n: Naming)
    ensures F.Column(Findings(src, n), F.FindingDecision) == F.Column(src.findings, Decision)
    ensures F.Column(Findings(src, n), F.FindingLevel) == F.Column(src.findings, Level)
  {
  }

  /** What the loader computes itself always agrees with the graph; what it takes from the manifest has to. */
  lemma StatisticsAgreeIff(src: Source, r: Report, n: Naming)
    requires IsLoaded(src, r) && UniqueBy(n.categoryIds, Same)
    ensures
      var fx := FixtureOf(src, r, n);
      (fx.statistics == F.StatisticsOf(fx) <==> CountsAgree(src, n)) && F.ProvenanceOk(fx)
  {
    hide InvestigationsOk, Covered, TemplateOk, StandaloneOk, IndexAgrees, IsIndex, EvidenceOf, Evidence, Keys,
      FrozenReport.EvidenceOwned, F.Counted, Representative, KindCounts;
    var fx := FixtureOf(src, r, n);
    MapElements(r.posts, PostRef, Posts(r, n), F.PostId);
    MapElements(src.findings, FindingRef, Findings(src, n), F.FindingId);
    MapElements(n.categoryIds, Same, Cases(r, n), F.CaseId);
    hide UniqueBy, F.Column;
    UniqueCount(fx.posts, F.PostId);
    UniqueCount(fx.findings, F.FindingId);
    UniqueCount(fx.cases, F.CaseId);
    FindingColumns(src, n);
    KindCountsAre(n, src.evidence, Keys(src.evidence), []);
    assert F.Counted([]) == map[] by { NothingCounted(); }
    assert [] + F.Column(fx.evidence, F.EvidenceKind) == F.Column(fx.evidence, F.EvidenceKind);
  }

  lemma NothingCounted()
    ensures F.Counted([]) == map[]
  {
  }

  /** What the validation of the fixture demands beyond what the loader has checked. */
  ghost predicate Demands(src: Source, r: Report, n: Naming) {
    && RevisionsDiffer(r, n) && UniqueBy(n.categoryIds, Same) && UniqueBy(Shown(r, n), Same)
    && FindingsKnown(src) && CountsAgree(src, n)
  }

  /**
    The validation of the fixture accepts a loaded report exactly when payload hashes differ, category
    ids differ (they are a primary key), no post represents two of the shown findings, every decision
    and level is a known one, and the manifest's decision and risk counts are those of the findings.
  */
  lemma LoadedFixtureIsValidIff(src: Source, r: Report, n: Naming)
    requires IsLoaded(src, r) && |n.categoryIds| <= |r.investigations|
    ensures F.ValidGraph(FixtureOf(src, r, n)) <==> Demands(src, r, n)
  {
    hide IsLoaded, RevisionsDiffer, F.IdsOk, F.MembershipOk, F.PostOwned, F.EvidenceOwned, F.Contiguous, F.OrdinalsOf, F.Reported, Evidence,
      Keys, Representative, PostRefs, UniqueBy, F.TypesOk, F.ProvenanceOk, F.StatisticsOf, StatedOf, CountsAgree, FindingsKnown;
    var fx := FixtureOf(src, r, n);
    TypesAreOkIff(src, r, n);
    IdsAreOk(src, r, n);
    MembershipIsOk(src, r, n);
    PostsAreOwned(src, r, n);
    EvidenceIsOwned(src, r, n);
    ReportedAre(fx.cases, Shown(r, n));
    ShownArePosts(src, r, n);
    SameKeys(Shown(r, n));
    PostKeys(src, r, n);
    forall e | e in fx.evidence ensures F.Contiguous(F.OrdinalsOf(fx.evidence, e.parentPost)) {
      EvidenceIsContiguous(src, r, n, e.parentPost);
    }
    if UniqueBy(n.categoryIds, Same) {
      StatisticsAgreeIff(src, r, n);
    }
  }

  lemma SameKeys(ids: seq<string>)
    ensures UniqueBy(ids, Same) <==> UniqueBy(ids, F.Itself)
  {
    assert forall x: string :: Same(x) == F.Itself(x);
  }

  lemma PostKeys(src: Source, r: Report, n: Naming)
    ensures KeySet(FixtureOf(src, r, n).posts, F.PostId) == PostRefs(r.posts)
  {
    hide Evidence, Keys, UniqueBy, Representative;
    var posts := Posts(r, n);
    forall p | p in PostRefs(r.posts) ensures p in KeySet(posts, F.PostId) {
      var row :| row in r.posts && row.postRef == p;
      var i :| 0 <= i < |r.posts| && r.posts[i] == row;
      assert posts[i] in posts && F.PostId(posts[i]) == p;
    }
    forall p | p in KeySet(posts, F.PostId) ensures p in PostRefs(r.posts) {
      var x :| x in posts && F.PostId(x) == p;
      var i :| 0 <= i < |posts| && posts[i] == x;
      assert r.posts[i] in r.posts;
    }
  }

  // ---- counts that the report store writes ----

  const RawDecision: FindingRow -> string := (f: FindingRow) => f.decision
  const RawLevel: FindingRow -> string := (f: FindingRow) => f.riskLevel

  lemma CountedKeys(keys: seq<string>, key: string)
    ensures key in F.Counted(keys) <==> key in keys
  {
  }

  lemma RawCountsAgreeIff(findings: seq<FindingRow>, raw: FindingRow -> string, read: FindingRow -> string, default: string)
    requires default != "" && forall f :: read(f) == if raw(f) == "" then default else raw(f)
    ensures F.Counted(F.Column(findings, raw)) == F.Counted(F.Column(findings, read)) <==> forall f <- findings :: raw(f) != ""
  {
    hide F.Counted;
    var a, b := F.Column(findings, raw), F.Column(findings, read);
    if forall f <- findings :: raw(f) != "" {
      assert forall i | 0 <= i < |findings| :: findings[i] in findings;
      assert a == b;
    }
    if f :| f in findings && raw(f) == "" {
      var i :| 0 <= i < |findings| && findings[i] == f;
      assert a[i] == "" && "" !in b;
      CountedKeys(a, "");
      CountedKeys(b, "");
    }
  }

  /**
    The store counts a finding without a decision or a level under the empty key, and the loader reads it
    as `pass` or `none`: with the store's counts a report is consistent exactly when nothing is missing.
  */
  lemma StoredCountsAgreeIff(src: Source, n: Naming)
    requires n.decisionCounts == F.Counted(F.Column(src.findings, RawDecision))
    requires n.levelCounts == F.Counted(F.Column(src.findings, RawLevel))
    ensures CountsAgree(src, n) <==> forall f <- src.findings :: f.decision != "" && f.riskLevel != ""
  {
    hide F.Counted, F.Column;
    RawCountsAgreeIff(src.findings, RawDecision, Decision, "pass");
    RawCountsAgreeIff(src.findings, RawLevel, Level, "none");
    assert forall f: FindingRow :: RawDecision(f) == f.decision && RawLevel(f) == f.riskLevel;
  }

  // ---- concrete reports that the loader accepts and the validation refuses ----

  const SAFE := FindingRow("f", "p", "pass", "none")

  const SAFE_SOURCE := Source(AllPass, [PostRow("p")], [SAFE], [], [], [], true)

  const SAFE_REPORT := Report([PostRow("p")], map["p" := "f"], map["f" := SAFE], map[], map[], [], [])

  function Miscounted(revisionOf: string -> string, kindOf: string -> string): Naming {
    Naming("r", "s", [], revisionOf, kindOf, map["pass" := 2], map["none" := 2])
  }

  lemma NothingFor(p: string)
    ensures EvidenceOf([], p) == []
  {
  }

  lemma SafeIsLoaded()
    ensures IsLoaded(SAFE_SOURCE, SAFE_REPORT)
  {
    assert forall f: FindingRow :: FindingRef(f) == f.findingRef;
    assert SAFE in SAFE_SOURCE.findings && PostRow("p") in SAFE_SOURCE.posts;
    assert Related(SAFE_SOURCE, SAFE_REPORT.findingByPost);
    forall p ensures EvidenceOf([], p) == [] {
      NothingFor(p);
    }
    assert IndexAgrees(SAFE_REPORT.evidenceByPost, SAFE_SOURCE.evidence);
    assert Members([]) == {} && StandalonePosts([]) == {} && RiskPostRefs([SAFE]) == {};
  }

  /** A manifest that counts the only finding twice: loaded, and then refused. */
  lemma MiscountedIsRefused(revisionOf: string -> string, kindOf: string -> string)
    ensures IsLoaded(SAFE_SOURCE, SAFE_REPORT)
    ensures !F.ValidGraph(FixtureOf(SAFE_SOURCE, SAFE_REPORT, Miscounted(revisionOf, kindOf)))
  {
    var n := Miscounted(revisionOf, kindOf);
    SafeIsLoaded();
    assert F.Column(SAFE_SOURCE.findings, Decision) == ["pass"];
    assert F.Counted(["pass"])["pass"] == 1 by {
      assert multiset(["pass"]) == multiset{"pass"};
    }
    assert !CountsAgree(SAFE_SOURCE, n);
    hide IsLoaded, F.ValidGraph, FixtureOf, CountsAgree;
    LoadedFixtureIsValidIff(SAFE_SOURCE, SAFE_REPORT, n);
  }

  const RISKY := FindingRow("f", "p", "reject", "high")

  const SHOWN_MEMBER := Membership("p", "f", true, [])

  const TWO_FINDINGS: seq<InvestigationRow> := [InvestigationRow("r:IF1", 1, [SHOWN_MEMBER]), InvestigationRow("r:IF2", 2, [SHOWN_MEMBER])]

  const RISKY_SOURCE := Source(Investigation, [PostRow("p")], [RISKY], [], TWO_FINDINGS, [], true)

  const RISKY_REPORT := Report([PostRow("p")], map["p" := "f"], map["f" := RISKY], map[], map[], TWO_FINDINGS, [])

  lemma TwoFindingsOk()
    ensures InvestigationsOk(TWO_FINDINGS, {"p"}, RISKY_REPORT.findings, RISKY_REPORT.evidence)
  {
    assert Representatives([SHOWN_MEMBER]) == 1 by {
      assert [SHOWN_MEMBER][..0] == [];
    }
    assert AfterLastColon("r:IF1") == "IF1" by {
      assert "r:IF1"[..4] == "r:IF" && "r:IF"[..3] == "r:I" && "r:I"[..2] == "r:";
    }
    assert AfterLastColon("r:IF2") == "IF2" by {
      assert "r:IF2"[..4] == "r:IF" && "r:IF"[..3] == "r:I" && "r:I"[..2] == "r:";
    }
    assert Tokens.Decimal(1) == "1" && Tokens.Decimal(2) == "2";
    assert MembershipOk(SHOWN_MEMBER, {"p"}, RISKY_REPORT.findings, RISKY_REPORT.evidence);
  }

  lemma RiskyIsLoaded()
    ensures IsLoaded(RISKY_SOURCE, RISKY_REPORT)
  {
    assert forall f: FindingRow :: FindingRef(f) == f.findingRef;
    assert RISKY in RISKY_SOURCE.findings && PostRow("p") in RISKY_SOURCE.posts;
    assert Related(RISKY_SOURCE, RISKY_REPORT.findingByPost);
    forall p ensures EvidenceOf([], p) == [] {
      NothingFor(p);
    }
    assert IndexAgrees(RISKY_REPORT.evidenceByPost, RISKY_SOURCE.evidence);
    TwoFindingsOk();
    assert PostRefs(RISKY_SOURCE.posts) == {"p"};
    hide InvestigationsOk;
    assert Covered(RISKY_SOURCE, []) by {
      assert TWO_FINDINGS[0] in TWO_FINDINGS && SHOWN_MEMBER in TWO_FINDINGS[0].memberships;
      assert Members(TWO_FINDINGS) == {"p"} && StandalonePosts([]) == {} && RiskPostRefs([RISKY]) == {"p"};
    }
  }

  /** One post represents both shown findings: loaded, and then refused, whatever the ids, hashes and counts are. */
  lemma SharedRepresentativeIsRefused(n: Naming)
    requires |n.categoryIds| == 2
    ensures IsLoaded(RISKY_SOURCE, RISKY_REPORT)
    ensures !F.ValidGraph(FixtureOf(RISKY_SOURCE, RISKY_REPORT, n))
  {
    RiskyIsLoaded();
    assert RepresentativeAt(RISKY_REPORT, 0) == "p" && RepresentativeAt(RISKY_REPORT, 1) == "p";
    assert Shown(RISKY_REPORT, n)[0] == Shown(RISKY_REPORT, n)[1];
    hide IsLoaded, F.ValidGraph, FixtureOf, CountsAgree, RepresentativeAt;
    LoadedFixtureIsValidIff(RISKY_SOURCE, RISKY_REPORT, n);
  }
}
