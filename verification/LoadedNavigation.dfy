/** Every report that the loader accepts has the relations that navigation relies on. */
module LoadedNavigation {
  import opened FrozenReport
  import opened Sorting
  import N = Navigation

  /** The parts of a published report that the loader takes over as they are. */
  datatype Names = Names(unified: bool, reportId: string, snapshotId: string, revisionOf: string -> string,
                         kindOf: string -> string, riskComments: map<string, seq<string>>)

  function InvestigationOf(rows: seq<InvestigationRow>, ref: string): (row: InvestigationRow)
    requires exists x <- rows :: x.findingRef == ref
    ensures row in rows && row.findingRef == ref
  {
    if rows[0].findingRef == ref then rows[0] else InvestigationOf(rows[1..], ref)
  }

  function MembersOf(row: InvestigationRow): seq<N.Member> {
    seq(|row.memberships|, i requires 0 <= i < |row.memberships| =>
      N.Member(row.memberships[i].postRef, row.memberships[i].evidenceRefs))
  }

  /** A post with its audit finding; every post of a loaded report has one. */
  function PostDataOf(r: Report, names: Names, postRef: string): N.PostData {
    if postRef in r.findingByPost && r.findingByPost[postRef] in r.findings
    then
      var f := r.findings[r.findingByPost[postRef]];
      N.PostData(names.revisionOf(postRef), DecisionOf(f), LevelOf(f))
    else N.PostData(names.revisionOf(postRef), "", "")
  }

  function PostOrder(posts: seq<PostRow>): seq<string> {
    seq(|posts|, i requires 0 <= i < |posts| => posts[i].postRef)
  }

  function EvidenceDataOf(names: Names, row: EvidenceRow): N.EvidenceData {
    N.EvidenceData(row.postRef, names.revisionOf(row.postRef), EvidenceType(names.kindOf(row.evidenceRef)))
  }

  function RefsOf(rows: seq<EvidenceRow>): seq<string> {
    seq(|rows|, i requires 0 <= i < |rows| => rows[i].evidenceRef)
  }

  /** The lookups of `PublishedReportRepository`, as the navigation tools use them. */
  function NavigationOf(r: Report, names: Names): N.Report {
    N.Report(true, names.unified, names.reportId, names.snapshotId, [], map[], map[],
             map p | p in PostRefs(r.posts) :: PostDataOf(r, names, p),
             PostOrder(r.posts), set p | p in PostRefs(r.posts) :: names.revisionOf(p),
             seq(|r.investigations|, i requires 0 <= i < |r.investigations| => r.investigations[i].findingRef),
             map f | f in (set x <- r.investigations :: x.findingRef) :: MembersOf(InvestigationOf(r.investigations, f)),
             seq(|r.standalone|, i requires 0 <= i < |r.standalone| => r.standalone[i].postRef),
             map e | e in r.evidence :: EvidenceDataOf(names, r.evidence[e]),
             r.evidence.Keys,
             map p | p in r.evidenceByPost :: RefsOf(r.evidenceByPost[p]),
             names.riskComments)
  }

  lemma LoadedFindingsOk(src: Source, r: Report, names: Names)
    requires IsLoaded(src, r)
    ensures N.FindingsOk(NavigationOf(r, names))
  {
    hide EvidenceOf, AfterLastColon, Representatives, Covered, TemplateOk;
    var rep := NavigationOf(r, names);
    assert forall i | 0 <= i < |r.investigations| :: r.investigations[i] in r.investigations;
    forall f | f in rep.findings
      ensures N.DistinctPosts(rep.findings[f]) && forall m <- rep.findings[f] :: N.MemberOk(rep, m)
    {
      var row := InvestigationOf(r.investigations, f);
      var k :| 0 <= k < |r.investigations| && r.investigations[k] == row;
      assert InvestigationOk(row, k + 1, PostRefs(src.posts), r.findings, r.evidence);
      MembersAreOk(src, r, names, row, k);
    }
  }

  lemma MembersAreOk(src: Source, r: Report, names: Names, row: InvestigationRow, k: nat)
    requires IsLoaded(src, r) && k < |r.investigations| && r.investigations[k] == row
    ensures N.DistinctPosts(MembersOf(row)) && forall m <- MembersOf(row) :: N.MemberOk(NavigationOf(r, names), m)
  {
    hide EvidenceOf, AfterLastColon, Representatives, Covered, TemplateOk, IndexAgrees;
    var rep, members := NavigationOf(r, names), MembersOf(row);
    assert InvestigationOk(row, k + 1, PostRefs(src.posts), r.findings, r.evidence);
    forall i, j | 0 <= i < j < |members| ensures members[i].postId != members[j].postId {
      assert MemberPost(row.memberships[i]) != MemberPost(row.memberships[j]);
    }
    forall m | m in members ensures N.MemberOk(rep, m) {
      var i :| 0 <= i < |members| && members[i] == m;
      var x := row.memberships[i];
      assert x in row.memberships && MembershipOk(x, PostRefs(src.posts), r.findings, r.evidence);
      forall e | e in m.evidenceIds ensures e in rep.evidence && rep.evidence[e].parentPost == m.postId {
        assert EvidenceSupports(x, r.evidence, e);
      }
    }
  }

  lemma OwnedEvidence(src: Source, r: Report, x: string)
    requires IsLoaded(src, r) && x in r.evidence
    ensures r.evidence[x].postRef in PostRefs(r.posts)
  {
    assert r.evidence[x] in src.evidence;
  }

  lemma GroupedEvidence(src: Source, r: Report, p: string, row: EvidenceRow)
    requires IsLoaded(src, r) && p in r.evidenceByPost && row in r.evidenceByPost[p]
    ensures row.postRef == p && row.evidenceRef in r.evidence && r.evidence[row.evidenceRef] == row
  {
    hide Related, InvestigationsOk, Covered, TemplateOk, StandaloneOk, UniqueBy;
    EvidenceOfScan(src.evidence, p);
    assert r.evidenceByPost[p] == EvidenceOf(src.evidence, p);
    assert EvidenceRef(row) == row.evidenceRef;
  }

  lemma LoadedEvidenceOk(src: Source, r: Report, names: Names)
    requires IsLoaded(src, r)
    ensures N.EvidenceOk(NavigationOf(r, names))
  {
    hide IsLoaded;
    var rep := NavigationOf(r, names);
    forall p, e | p in rep.evidenceByPost && e in rep.evidenceByPost[p] ensures e in rep.evidence && rep.evidence[e].parentPost == p {
      var rows := r.evidenceByPost[p];
      var i :| 0 <= i < |rows| && rows[i].evidenceRef == e;
      GroupedEvidence(src, r, p, rows[i]);
    }
    forall e | e in rep.evidence ensures rep.evidence[e].parentPost in rep.posts {
      OwnedEvidence(src, r, e);
    }
  }

  lemma OrderHasThePosts(posts: seq<PostRow>)
    ensures (set p <- PostOrder(posts)) == PostRefs(posts)
  {
    forall p | p in PostRefs(posts) ensures p in PostOrder(posts) {
      var row :| row in posts && row.postRef == p;
      var i :| 0 <= i < |posts| && posts[i] == row;
      assert PostOrder(posts)[i] == p;
    }
  }

  lemma LoadedPostsOk(r: Report, names: Names)
    ensures N.PostsOk(NavigationOf(r, names))
  {
    hide PostOrder, PostRefs, EvidenceDataOf;
    OrderHasThePosts(r.posts);
  }

  lemma StandaloneArePosts(src: Source, r: Report, names: Names)
    requires IsLoaded(src, r)
    ensures forall p <- NavigationOf(r, names).standalone :: p in PostRefs(r.posts)
  {
    hide InvestigationsOk, IndexAgrees, EvidenceOwned, IsIndex, UniqueBy, IsRisk;
    forall p | p in NavigationOf(r, names).standalone ensures p in PostRefs(r.posts) {
      var i :| 0 <= i < |r.standalone| && r.standalone[i].postRef == p;
      assert r.standalone[i] in r.standalone;
      assert p in StandalonePosts(r.standalone) && p in RiskPostRefs(src.findings);
    }
  }

  /** The graph that the loader accepts satisfies everything that the navigation results assume. */
  lemma LoadedIsWellFormed(src: Source, r: Report, names: Names)
    requires IsLoaded(src, r)
    ensures N.WellFormed(NavigationOf(r, names))
  {
    hide N.FindingsOk, N.EvidenceOk, N.PostsOk, IsLoaded, PostRefs;
    LoadedFindingsOk(src, r, names);
    LoadedEvidenceOk(src, r, names);
    LoadedPostsOk(r, names);
    StandaloneArePosts(src, r, names);
  }
}
