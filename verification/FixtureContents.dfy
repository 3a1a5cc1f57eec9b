/** What the validation of a fixture promises, spelled out entry by entry. */
module FixtureContents {
  import opened Sorting
  import opened Sublists
  import opened FrozenGraph

  ghost predicate InPosition(s: seq<Case>) {
    forall i, j | 0 <= i < j < |s| :: s[i].position <= s[j].position
  }

  lemma {:induction false} InsertKeepsAll(c: Case, s: seq<Case>)
    ensures multiset(InsertCase(c, s)) == multiset(s) + multiset{c}
  {
    if s != [] && c.position > s[0].position {
      InsertKeepsAll(c, s[1..]);
      assert s == [s[0]] + s[1..] && InsertCase(c, s) == [s[0]] + InsertCase(c, s[1..]);
    } else {
      assert InsertCase(c, s) == [c] + s;
    }
  }

  lemma {:induction false} InsertKeepsOrder(c: Case, s: seq<Case>)
    requires InPosition(s)
    ensures InPosition(InsertCase(c, s))
  {
    if s != [] && c.position > s[0].position {
      var tail, t := s[1..], InsertCase(c, s[1..]);
      InsertKeepsOrder(c, tail);
      InsertKeepsCases(c, tail);
      assert InsertCase(c, s) == [s[0]] + t;
      hide InsertCase;
      forall x | x in t ensures s[0].position <= x.position {
        if x != c {
          var k :| 0 <= k < |tail| && tail[k] == x;
          assert s[k + 1] == x;
        }
      }
      FrontFits(s[0], t);
    } else {
      assert InsertCase(c, s) == [c] + s;
    }
  }

  lemma FrontFits(c: Case, t: seq<Case>)
    requires InPosition(t) && forall x <- t :: c.position <= x.position
    ensures InPosition([c] + t)
  {
    assert forall i | 0 <= i < |t| :: t[i] in t;
  }

  /** The cases in the order of their positions are all the cases. */
  lemma {:induction false} SortedCases(cases: seq<Case>)
    ensures
      var t := SortCases(cases);
      multiset(t) == multiset(cases) && InPosition(t)
  {
    if cases != [] {
      SortedCases(cases[1..]);
      InsertKeepsAll(cases[0], SortCases(cases[1..]));
      InsertKeepsOrder(cases[0], SortCases(cases[1..]));
      assert cases == [cases[0]] + cases[1..];
    }
  }

  /** The report lists its cases in the order of their positions. */
  ghost predicate CasesListed(fx: Fixture) {
    exists sorted: seq<Case> ::
      && multiset(sorted) == multiset(fx.cases) && InPosition(sorted)
      && |fx.caseIds| == |sorted| && forall i | 0 <= i < |sorted| :: fx.caseIds[i] == sorted[i].id
  }

  function IsText(text: string): string -> bool {
    (s: string) => s == text
  }

  /** The count of a key is the number of entries that have it, and other keys have no count. */
  ghost predicate CountsColumn(counts: map<string, int>, column: seq<string>) {
    forall k ::
      && (k in counts <==> k in column)
      && (k in counts ==> counts[k] == |Filter(column, IsText(k))|)
  }

  lemma {:induction false} FilterCounts(column: seq<string>, k: string)
    ensures |Filter(column, IsText(k))| == multiset(column)[k]
  {
    if column != [] {
      FilterCounts(column[1..], k);
      assert column == [column[0]] + column[1..];
    }
  }

  lemma CountedCounts(column: seq<string>)
    ensures CountsColumn(Counted(column), column)
  {
    forall k ensures k in Counted(column) ==> Counted(column)[k] == |Filter(column, IsText(k))| {
      FilterCounts(column, k);
    }
  }

  ghost predicate SnapshotTells(fx: Fixture) {
    && fx.reportSnapshotId == fx.snapshotId && fx.provenance.snapshotId == fx.snapshotId
    && (forall id :: id in fx.postIds <==> exists p <- fx.posts :: p.id == id)
    && (forall id :: id in fx.revisionIds <==> exists p <- fx.posts :: p.revisionId == id)
    && (forall id :: id in fx.findingIds <==> exists f <- fx.findings :: f.id == id)
    && (forall id :: id in fx.evidenceIds <==> exists e <- fx.evidence :: e.id == id)
  }

  ghost predicate OwnersTell(fx: Fixture) {
    && (forall p <- fx.posts :: exists f <- fx.findings :: f.id == p.findingId && f.postId == p.id && f.postRevisionId == p.revisionId)
    && (forall e <- fx.evidence :: exists p <- fx.posts :: p.id == e.parentPost && p.revisionId == e.parentRevision)
    && (forall e <- fx.evidence :: exists f <- fx.findings :: f.id == e.findingId && f.postId == e.parentPost)
    && (forall f <- fx.findings :: f.decision in ["pass", "review", "reject"] && f.riskLevel in ["none", "low", "medium", "high"])
    && (forall e <- fx.evidence :: e.kind in ["text", "comment", "asr", "ocr", "keyframe"])
    && (forall c <- fx.cases :: c.position >= 1)
  }

  ghost predicate CountsTell(fx: Fixture) {
    var s := fx.statistics;
    && s.cases == |fx.cases| && s.posts == |fx.posts| && s.findings == |fx.findings| && s.evidence == |fx.evidence|
    && CountsColumn(s.decisions, Column(fx.findings, FindingDecision))
    && CountsColumn(s.levels, Column(fx.findings, FindingLevel))
    && CountsColumn(s.kinds, Column(fx.evidence, EvidenceKind))
    && fx.provenance.counts == map["posts" := |fx.posts|, "findings" := |fx.findings|, "evidence" := |fx.evidence|]
  }

  /** A fixture that passes its validation has its parts in its snapshot, owners for all of them, ordered cases and true counts. */
  lemma ValidTells(fx: Fixture)
    requires ValidGraph(fx)
    ensures SnapshotTells(fx) && OwnersTell(fx) && CasesListed(fx) && CountsTell(fx)
  {
    hide UniqueBy, Counted, Column, CountsColumn, SortCases, Reported, Contiguous, SnapshotTells, OwnersTell, CasesListed, CountsTell,
      PostOwned, EvidenceOwned, MembershipOk, TypesOk, ProvenanceOk;
    SnapshotIsTold(fx);
    OwnersAreTold(fx);
    CasesAreListed(fx);
    CountsAreTold(fx);
  }

  lemma KeysAre<T(!new)>(ids: seq<string>, rows: seq<T>, idOf: T -> string)
    requires Elements(ids) == KeySet(rows, idOf)
    ensures forall id :: id in ids <==> exists x <- rows :: idOf(x) == id
  {
    forall id ensures id in ids <==> exists x <- rows :: idOf(x) == id {
      assert id in ids <==> id in Elements(ids);
    }
  }

  lemma SnapshotIsTold(fx: Fixture)
    requires MembershipOk(fx) && ProvenanceOk(fx)
    ensures SnapshotTells(fx)
  {
    hide SortCases, Elements, KeySet;
    KeysAre(fx.postIds, fx.posts, PostId);
    KeysAre(fx.revisionIds, fx.posts, PostRevision);
    KeysAre(fx.findingIds, fx.findings, FindingId);
    KeysAre(fx.evidenceIds, fx.evidence, EvidenceId);
    assert forall p: Post :: PostId(p) == p.id && PostRevision(p) == p.revisionId;
    assert forall f: Finding :: FindingId(f) == f.id;
    assert forall e: Evidence :: EvidenceId(e) == e.id;
  }

  lemma OwnersAreTold(fx: Fixture)
    requires TypesOk(fx) && (forall p <- fx.posts :: PostOwned(fx, p)) && (forall e <- fx.evidence :: EvidenceOwned(fx, e))
    ensures OwnersTell(fx)
  {
    forall e | e in fx.evidence
      ensures exists p <- fx.posts :: p.id == e.parentPost && p.revisionId == e.parentRevision
      ensures exists f <- fx.findings :: f.id == e.findingId && f.postId == e.parentPost
    {
      assert EvidenceOwned(fx, e);
      var f, p :| f in fx.findings && p in fx.posts && f.id == e.findingId && p.id == e.parentPost && f.postId == p.id
                  && p.revisionId == e.parentRevision;
    }
    forall p | p in fx.posts
      ensures exists f <- fx.findings :: f.id == p.findingId && f.postId == p.id && f.postRevisionId == p.revisionId
    {
      assert PostOwned(fx, p);
    }
  }

  lemma CasesAreListed(fx: Fixture)
    requires MembershipOk(fx)
    ensures CasesListed(fx)
  {
    hide KeySet, Elements;
    SortedCases(fx.cases);
    var sorted := SortCases(fx.cases);
    assert forall i | 0 <= i < |sorted| :: fx.caseIds[i] == sorted[i].id;
  }

  lemma CountsAreTold(fx: Fixture)
    requires IdsOk(fx) && fx.statistics == StatisticsOf(fx) && ProvenanceOk(fx)
    ensures CountsTell(fx)
  {
    hide UniqueBy, KeySet, Counted, Column, CountsColumn;
    UniqueCount(fx.cases, CaseId);
    UniqueCount(fx.posts, PostId);
    UniqueCount(fx.findings, FindingId);
    CountedCounts(Column(fx.findings, FindingDecision));
    CountedCounts(Column(fx.findings, FindingLevel));
    CountedCounts(Column(fx.evidence, EvidenceKind));
  }
}
