/** Which reports have lists without repetition: all loaded ones, and the fixtures with as many post ids as posts. */
module ListedOnce {
  import opened Wrappers
  import opened Sorting
  import opened Sublists
  import opened NavigationCommits
  import N = Navigation
  import L = LoadedNavigation
  import P = FrozenReport
  import F = FrozenGraph
  import B = CommentBatches
  import C = FrozenComments
  import R = ReportTaskRefs
  import W = NavigationRuns

  // ---- loaded reports ----

  /** The risk comments of a post have an identity each. */
  ghost predicate CommentsOnce(names: L.Names) {
    forall p <- names.riskComments :: Once(names.riskComments[p])
  }

  /** `risk_comments_for_post`, for every post of the report. */
  function RiskComments(comments: B.Report): map<string, seq<string>> {
    map p | p in comments.posts :: B.Ids(B.Matching(comments, B.Query(p, B.Risk)))
  }

  lemma LoadedCommentsOnce(payloads: seq<C.Payload>, clock: C.Clock, comments: B.Report, names: L.Names)
    requires C.IsLoaded(payloads, clock, comments) && names.riskComments == RiskComments(comments)
    ensures CommentsOnce(names)
  {
    hide C.IsLoaded, B.Matching;
    forall p | p in names.riskComments ensures Once(names.riskComments[p]) {
      var all := B.Matching(comments, B.Query(p, B.Risk));
      C.LoadedMatchesAreDistinct(payloads, clock, comments, B.Query(p, B.Risk));
      forall i, j | 0 <= i < j < |all| ensures Itself(B.Ids(all)[i]) != Itself(B.Ids(all)[j]) {
        assert C.IdOfComment(all[i]) != C.IdOfComment(all[j]);
      }
    }
  }

  lemma RefsOnce(rows: seq<P.EvidenceRow>)
    requires UniqueBy(rows, P.EvidenceRef)
    ensures Once(L.RefsOf(rows))
  {
    forall i, j | 0 <= i < j < |rows| ensures Itself(L.RefsOf(rows)[i]) != Itself(L.RefsOf(rows)[j]) {
      assert P.EvidenceRef(rows[i]) != P.EvidenceRef(rows[j]);
    }
  }

  lemma LoadedOrderOnce(src: P.Source, r: P.Report)
    requires P.IsLoaded(src, r)
    ensures Once(L.PostOrder(r.posts))
  {
    hide P.Covered, P.TemplateOk, P.InvestigationsOk, P.IndexAgrees, P.IsIndex, P.EvidenceOwned;
    var order := L.PostOrder(r.posts);
    forall i, j | 0 <= i < j < |order| ensures Itself(order[i]) != Itself(order[j]) {
      assert P.PostRef(src.posts[i]) != P.PostRef(src.posts[j]);
    }
  }

  lemma LoadedStandaloneOnce(src: P.Source, r: P.Report, names: L.Names)
    requires P.IsLoaded(src, r)
    ensures Once(L.NavigationOf(r, names).standalone)
  {
    hide P.Covered, P.InvestigationsOk, P.IndexAgrees, P.IsIndex, P.EvidenceOwned, P.Related, P.IsRisk;
    var ids := L.NavigationOf(r, names).standalone;
    forall i, j | 0 <= i < j < |ids| ensures Itself(ids[i]) != Itself(ids[j]) {
      assert P.StandalonePost(src.standalone[i]) != P.StandalonePost(src.standalone[j]);
    }
  }

  lemma LoadedFindingsOnce(src: P.Source, r: P.Report, names: L.Names)
    requires P.IsLoaded(src, r)
    ensures Once(L.NavigationOf(r, names).findingOrder)
  {
    hide P.IsLoaded;
    var ids := L.NavigationOf(r, names).findingOrder;
    forall i, j | 0 <= i < j < |ids| ensures Itself(ids[i]) != Itself(ids[j]) {
      P.InvestigationRefsAreDistinct(src, r, i, j);
    }
  }

  lemma LoadedMembersOnce(src: P.Source, r: P.Report, names: L.Names)
    requires P.IsLoaded(src, r)
    ensures forall f <- L.NavigationOf(r, names).findings :: forall m <- L.NavigationOf(r, names).findings[f] :: Once(m.evidenceIds)
  {
    hide P.EvidenceOf, P.AfterLastColon, P.Representatives, P.Covered, P.TemplateOk, P.IndexAgrees, P.Related, P.IsIndex;
    var rep := L.NavigationOf(r, names);
    forall f, m | f in rep.findings && m in rep.findings[f] ensures Once(m.evidenceIds) {
      var row := L.InvestigationOf(r.investigations, f);
      var k :| 0 <= k < |r.investigations| && r.investigations[k] == row;
      assert P.InvestigationOk(row, k + 1, P.PostRefs(src.posts), r.findings, r.evidence);
      var i :| 0 <= i < |row.memberships| && L.MembersOf(row)[i] == m;
      assert row.memberships[i] in row.memberships;
      SameOnce(row.memberships[i].evidenceRefs);
    }
  }

  lemma SameOnce(ids: seq<string>)
    requires UniqueBy(ids, P.Same)
    ensures Once(ids)
  {
    forall i, j | 0 <= i < j < |ids| ensures Itself(ids[i]) != Itself(ids[j]) {
      assert P.Same(ids[i]) != P.Same(ids[j]);
    }
  }

  lemma LoadedEvidenceOnce(src: P.Source, r: P.Report)
    requires P.IsLoaded(src, r)
    ensures forall p <- r.evidenceByPost :: Once(L.RefsOf(r.evidenceByPost[p]))
  {
    hide P.Covered, P.InvestigationsOk, P.IsIndex, P.EvidenceOwned, P.Related, P.TemplateOk, P.StandaloneOk, Once;
    forall p | p in r.evidenceByPost ensures Once(L.RefsOf(r.evidenceByPost[p])) {
      assert r.evidenceByPost[p] == P.EvidenceOf(src.evidence, p);
      P.EvidenceRowsOnce(src.evidence, p);
      RefsOnce(r.evidenceByPost[p]);
    }
  }

  /** No loaded report lists an object twice. */
  lemma LoadedListsOnce(src: P.Source, r: P.Report, names: L.Names)
    requires P.IsLoaded(src, r) && CommentsOnce(names)
    ensures ListsOnce(L.NavigationOf(r, names))
  {
    assert Once([]);
    hide P.IsLoaded, Once, L.RefsOf, L.PostOrder, P.PostRefs;
    LoadedOrderOnce(src, r);
    LoadedStandaloneOnce(src, r, names);
    LoadedFindingsOnce(src, r, names);
    LoadedMembersOnce(src, r, names);
    LoadedEvidenceOnce(src, r);
  }

  /** Over every loaded report an uninterrupted tool call commits, and its references resolve to what it shows. */
  lemma LoadedCallsAnswer(src: P.Source, r: P.Report, payloads: seq<C.Payload>, clock: C.Clock, comments: B.Report,
                          names: L.Names, w: W.World, id: nat, sessionId: string, call: N.Call)
    requires P.IsLoaded(src, r) && C.IsLoaded(payloads, clock, comments) && names.riskComments == RiskComments(comments)
    requires W.Inv(L.NavigationOf(r, names), w) && id !in w.todo && sessionId in w.sys.reg.scopes
    requires N.ItemsOf(L.NavigationOf(r, names), w.sys.reg, sessionId, call).Ok?
    ensures
      var rep, scope := L.NavigationOf(r, names), w.sys.reg.scopes[sessionId];
      var items := N.ItemsOf(rep, w.sys.reg, sessionId, call).value;
      AllWork(W.Run(rep, w, Alone(id, sessionId, call, |items|)).sys.reg, sessionId, items,
              W.ExposeAll(w.sys.reg, EmptyBatch(scope), items).tokens)
  {
    hide *;
    L.LoadedIsWellFormed(src, r, names);
    LoadedCommentsOnce(payloads, clock, comments, names);
    LoadedListsOnce(src, r, names);
    LoneCallAnswers(L.NavigationOf(r, names), w, id, sessionId, call);
  }

  // ---- fixtures ----

  lemma {:induction false} InsertCaseKeeps(c: F.Case, s: seq<F.Case>)
    ensures multiset(F.InsertCase(c, s)) == multiset(s) + multiset{c}
  {
    if s != [] && c.position > s[0].position {
      InsertCaseKeeps(c, s[1..]);
      assert s == [s[0]] + s[1..];
    }
  }

  lemma {:induction false} SortCasesKeeps(s: seq<F.Case>)
    ensures multiset(F.SortCases(s)) == multiset(s)
  {
    if s != [] {
      SortCasesKeeps(s[1..]);
      InsertCaseKeeps(s[0], F.SortCases(s[1..]));
      assert s == [s[0]] + s[1..];
    }
  }

  lemma CaseIdsOnce(cases: seq<F.Case>)
    requires UniqueBy(cases, F.CaseId)
    ensures Once(F.CaseIds(F.SortCases(cases)))
  {
    var sorted := F.SortCases(cases);
    SortCasesKeeps(cases);
    ReorderedKeys(sorted, cases, F.CaseId);
    forall i, j | 0 <= i < j < |sorted| ensures Itself(F.CaseIds(sorted)[i]) != Itself(F.CaseIds(sorted)[j]) {
      assert F.CaseId(sorted[i]) != F.CaseId(sorted[j]);
    }
  }

  lemma {:induction false} MembersOfCaseOnce(cases: seq<F.Case>, c: F.Case)
    requires UniqueBy(F.Reported(cases), F.Itself) && c in cases
    ensures Once(c.members)
  {
    var init, last := cases[..|cases| - 1], cases[|cases| - 1];
    var before, all := F.Reported(init), F.Reported(cases);
    assert cases == init + [last] && all == before + last.members;
    if c == last {
      forall i, j | 0 <= i < j < |c.members| ensures Itself(c.members[i]) != Itself(c.members[j]) {
        assert F.Itself(all[|before| + i]) != F.Itself(all[|before| + j]);
      }
    } else {
      forall i, j | 0 <= i < j < |before| ensures F.Itself(before[i]) != F.Itself(before[j]) {
        assert F.Itself(all[i]) != F.Itself(all[j]);
      }
      MembersOfCaseOnce(init, c);
    }
  }

  lemma {:induction false} EvidenceForOnce(evidence: seq<F.Evidence>, postId: string)
    requires UniqueBy(evidence, F.EvidenceId)
    ensures UniqueBy(F.EvidenceFor(evidence, postId), F.EvidenceId)
  {
    if evidence != [] {
      var first, rest := evidence[0], evidence[1..];
      EvidenceForOnce(rest, postId);
      F.OrdinalsAre(rest, postId);
      var found := F.EvidenceFor(rest, postId);
      forall k | 0 <= k < |found| ensures F.EvidenceId(found[k]) != F.EvidenceId(first) {
        assert found[k] in found;
        var i :| 0 <= i < |rest| && rest[i] == found[k];
        assert F.EvidenceId(evidence[i + 1]) != F.EvidenceId(evidence[0]);
      }
    }
  }

  lemma EvidenceIdsOnce(evidence: seq<F.Evidence>, postId: string)
    requires UniqueBy(evidence, F.EvidenceId)
    ensures Once(F.IdsFor(evidence, postId))
  {
    hide F.EvidenceFor, F.SortEvidence;
    var items, sorted := F.EvidenceFor(evidence, postId), F.SortEvidence(F.EvidenceFor(evidence, postId));
    EvidenceForOnce(evidence, postId);
    F.SortSorts(items);
    ReorderedKeys(sorted, items, F.EvidenceId);
    forall i, j | 0 <= i < j < |sorted| ensures Itself(F.IdsFor(evidence, postId)[i]) != Itself(F.IdsFor(evidence, postId)[j]) {
      assert F.EvidenceId(sorted[i]) != F.EvidenceId(sorted[j]);
    }
  }

  lemma ItselfIsItself(ids: seq<string>)
    ensures Once(ids) <==> UniqueBy(ids, F.Itself)
  {
    assert forall x: string :: Itself(x) == F.Itself(x);
  }

  lemma CasesOnce(fx: F.Fixture)
    requires F.ValidGraph(fx)
    ensures Once(fx.caseIds) && forall c <- fx.cases :: Once(c.members)
  {
    hide F.PostOwned, F.EvidenceOwned, F.Contiguous, F.Reported, UniqueBy;
    CaseIdsOnce(fx.cases);
    forall c | c in fx.cases ensures Once(c.members) {
      MembersOfCaseOnce(fx.cases, c);
    }
  }

  lemma FixtureEvidenceOnce(fx: F.Fixture, postId: string)
    requires F.ValidGraph(fx)
    ensures Once(F.IdsFor(fx.evidence, postId))
  {
    hide F.PostOwned, F.EvidenceOwned, F.Contiguous, F.Reported, F.MembershipOk, UniqueBy;
    EvidenceIdsOnce(fx.evidence, postId);
  }

  /** The lists of a valid fixture have no repetition if and only if it has as many post ids as posts. */
  lemma FixtureListsOnceIff(fx: F.Fixture)
    requires F.ValidGraph(fx)
    ensures ListsOnce(F.NavigationOf(fx)) <==> |fx.postIds| == |fx.posts|
  {
    assert Once([]);
    hide Once, F.ValidGraph, F.CaseByPost, F.IdsFor;
    F.OrderedPostsListOnceIff(fx);
    ItselfIsItself(fx.postIds);
    CasesOnce(fx);
    forall p | p in KeySet(fx.posts, F.PostId) ensures Once(F.IdsFor(fx.evidence, p)) {
      FixtureEvidenceOnce(fx, p);
    }
  }

  /** A valid fixture whose snapshot names its only post twice. */
  const TWICE := F.Fixture("s", "s", "r", ["p", "p"], ["v"], ["f"], [], [], [],
                           [F.Post("p", "v", "f")], [F.Finding("f", "p", "v", "reject", "high")], [],
                           F.Statistics(0, 1, 1, 0, map["reject" := 1], map["high" := 1], map[]),
                           F.Provenance("s", map["posts" := 1, "findings" := 1, "evidence" := 0]))

  lemma OneKey(keys: seq<string>, key: string)
    requires keys == [key]
    ensures F.Counted(keys) == map[key := 1]
  {
    F.CountedSnoc([], key);
    assert [] + [key] == keys;
    assert F.Counted([]) == map[];
  }

  lemma TwiceCounts()
    ensures TWICE.statistics == F.StatisticsOf(TWICE) && F.ProvenanceOk(TWICE)
  {
    var p, f := TWICE.posts[0], TWICE.findings[0];
    assert F.PostId(p) == "p" && F.FindingId(f) == "f";
    assert KeySet(TWICE.posts, F.PostId) == {"p"} && KeySet(TWICE.findings, F.FindingId) == {"f"};
    assert KeySet(TWICE.cases, F.CaseId) == {};
    assert F.Column(TWICE.findings, F.FindingDecision) == ["reject"] && F.Column(TWICE.findings, F.FindingLevel) == ["high"];
    assert F.Column(TWICE.evidence, F.EvidenceKind) == [];
    OneKey(["reject"], "reject");
    OneKey(["high"], "high");
    assert F.Counted([]) == map[];
  }

  lemma TwiceIsValid()
    ensures F.ValidGraph(TWICE)
  {
    assert F.PostOwned(TWICE, TWICE.posts[0]) by {
      assert TWICE.findings[0] in TWICE.findings;
    }
    assert F.IdsOk(TWICE);
    assert F.MembershipOk(TWICE) by {
      assert F.PostId(TWICE.posts[0]) == "p" && F.PostRevision(TWICE.posts[0]) == "v" && F.FindingId(TWICE.findings[0]) == "f";
    }
    assert F.Reported(TWICE.cases) == [];
    TwiceCounts();
  }

  function Bound(nonce: string, sessionId: string, binding: R.Binding): W.World {
    W.World(R.System(R.EmptyRegistry(nonce).(scopes := map[sessionId := R.Scope(sessionId, binding, 1)]), map[], map[]), map[])
  }

  const NO_FILTERS := N.Filters(None, None)

  lemma TwiceIsShownTwice()
    ensures N.Slice(N.RiskCandidates(F.NavigationOf(TWICE), NO_FILTERS), 0, 2) == ["p", "p"]
  {
    var rep := F.NavigationOf(TWICE);
    assert F.PostId(TWICE.posts[0]) == "p";
    assert F.PostOf(TWICE.posts, "p") == TWICE.posts[0];
    assert rep.posts["p"] == N.PostData("v", "reject", "high");
    assert N.RiskCandidates(rep, NO_FILTERS) == ["p", "p"] by {
      var keep := N.IsRiskUnder(rep, NO_FILTERS);
      assert keep("p");
      assert ["p", "p"][1..] == ["p"] && ["p"][1..] == [];
      assert Filter(["p"], keep) == ["p"];
      assert Filter(["p", "p"], keep) == ["p", "p"];
    }
  }

  const TWICE_ITEM := N.Item(R.Post, "p", R.Origin(Some("s"), "search_posts", "risk_post_candidate_directory", "risk_preview"))

  lemma TwiceItems(reg: R.Registry, sessionId: string)
    ensures N.ItemsOf(F.NavigationOf(TWICE), reg, sessionId, N.SearchPosts(NO_FILTERS, 0, 2)) == Ok([TWICE_ITEM, TWICE_ITEM])
  {
    hide N.RiskCandidates, N.Slice, R.Resolve, F.CaseByPost, F.IdsFor;
    TwiceIsShownTwice();
    var rep := F.NavigationOf(TWICE);
    assert !rep.unified && rep.snapshotId == "s";
    assert N.PostItems(["p", "p"], TWICE_ITEM.origin) == [TWICE_ITEM, TWICE_ITEM];
  }

  /** The first search over that fixture is refused by its own commit, although nothing interferes. */
  lemma RepeatedPostBreaksSearch(nonce: string, sessionId: string, binding: R.Binding)
    ensures
      var rep, w := F.NavigationOf(TWICE), Bound(nonce, sessionId, binding);
      var steps := Alone(0, sessionId, N.SearchPosts(NO_FILTERS, 0, 2), 2);
      && F.ValidGraph(TWICE)
      && 0 in W.Run(rep, w, steps).sys.batches && !W.Run(rep, w, steps).sys.batches[0].committed
  {
    hide F.NavigationOf, F.ValidGraph, N.WellFormed, W.Inv, W.Run, W.ExposeAll, Alone, N.ItemsOf, AllWork;
    var rep, call, w := F.NavigationOf(TWICE), N.SearchPosts(NO_FILTERS, 0, 2), Bound(nonce, sessionId, binding);
    TwiceIsValid();
    TwiceItems(w.sys.reg, sessionId);
    F.ValidIsWellFormed(TWICE);
    BoundInv(rep, nonce, sessionId, binding);
    LoneCallAnswersIff(rep, w, 0, sessionId, call);
    var scope := w.sys.reg.scopes[sessionId];
    assert !Indexed(w.sys.reg, scope, TWICE_ITEM);
    assert [TWICE_ITEM, TWICE_ITEM][0] == [TWICE_ITEM, TWICE_ITEM][1];
  }

  lemma BoundInv(rep: N.Report, nonce: string, sessionId: string, binding: R.Binding)
    ensures W.Inv(rep, Bound(nonce, sessionId, binding))
  {
  }
}
