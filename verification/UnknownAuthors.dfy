/**
  A source that the builder accepts and the validation finds valid, in which a resolved account comments
  under a post whose author has no stable identity: the reference of the comment is shown and never read.
*/
module UnknownAuthors {
  import opened Wrappers
  import opened Sorting
  import opened CorpusViews
  import C = AccountCorpus
  import B = CorpusBuilder
  import L = CorpusLists
  import N = AccountNavigation
  import P = AccountPaging
  import Q = AccountListing
  import R = AccountActivityRefs
  import T = ReportTaskRefs
  import V = CorpusValidity
  import Tokens

  const NOBODY := C.SourceAccount("", "nickname")

  const READER := C.SourceAccount("u", "reader")

  const COMMENT := C.SourceComment("c", "", "", READER, "text", "2", "completed", "none", "")

  const POST := C.Row(C.DOUYIN, "p", "", "title", "", "1", "pass", "none", NOBODY, "3", "3", "3", [COMMENT])

  const JOBS: map<string, C.Job> := map["t" := C.Job("name", "3", "", [POST])]

  const ENTRY := C.Entry("t", JOBS["t"], POST)

  const COMMENTED := C.CommentEntry(ENTRY, COMMENT)

  const READER_REF := C.AccountRef(C.DOUYIN, C.NAMESPACE, "u")

  /** A build of that source whose printed references tell the occurrences apart. */
  ghost predicate IsOrphanBuild(b: Build) {
    && IsBuild(b) && b.tasks == ["t"] && b.jobs == JOBS && b.le == StringOrder
    && forall o, p | o in b.corpus.occurrences && p in b.corpus.occurrences && b.refOf(o.ref) == b.refOf(p.ref) :: o == p
  }

  lemma SourceIs()
    ensures C.Entries(["t"], JOBS) == [ENTRY] && C.Comments([ENTRY]) == [COMMENTED]
  {
    assert C.EntriesOf("t", JOBS["t"]) == [ENTRY] && C.Entries([], JOBS) == [];
    assert ["t"][1..] == [];
    assert C.CommentsOf(ENTRY) == [COMMENTED] && C.Comments([]) == [];
    assert [ENTRY][..0] == [];
  }

  lemma SourceIsAccepted()
    ensures C.Accepts(C.Entries(["t"], JOBS)) && V.NothingPredates(C.Entries(["t"], JOBS), StringOrder)
  {
    SourceIs();
    assert C.RowOk(POST) && C.CommentOk(POST, COMMENT);
    assert !C.Predates("2", "1", StringOrder) by {
      assert !("2"[0] <= "1"[0]);
    }
  }

  /** There is such a build, and it passes the validation of the corpus. */
  lemma OrphanBuildExists() returns (b: Build)
    ensures IsOrphanBuild(b) && C.IsValid(b.corpus, StringOrder)
  {
    SourceIsAccepted();
    var c := B.BuildExists(["t"], JOBS, StringOrder);
    b := Build(c, ["t"], JOBS, StringOrder, (a: C.AccountRef) => "account", (o: C.OccurrenceRef) => if o.kind.PostAuthor? then "post" else "comment", {});
    hide C.IsBuilt, C.Accepts, C.Entries, C.IsValid, V.NothingPredates, StringOrder, C.PostOccurrence, C.CommentOccurrence;
    forall o, p | o in c.occurrences && p in c.occurrences && b.refOf(o.ref) == b.refOf(p.ref) ensures o == p {
      OccurrencesAreTwo(b, o);
      OccurrencesAreTwo(b, p);
    }
    StringOrderIsTotal();
    assert Lists(["t"], Elements(["t"]), StringOrder);
    V.BuiltIsValidIff(c, ["t"], JOBS, StringOrder);
  }

  /** The corpus has the post and the comment. */
  lemma OccurrencesAreTwo(b: Build, o: C.Occurrence)
    requires IsBuild(b) && b.tasks == ["t"] && b.jobs == JOBS && o in b.corpus.occurrences
    ensures o == (if o.ref.kind.PostAuthor? then C.PostOccurrence(ENTRY, b.le) else C.CommentOccurrence(COMMENTED, b.le))
  {
    hide C.IsBuilt, C.Accepts, C.PostOccurrence, C.CommentOccurrence, V.Built, C.Entries, C.Comments;
    SourceIs();
    PartsAreBuilt(b);
    V.OccurrenceComesFrom(b.corpus, [ENTRY], b.le, o);
    L.PostFields(ENTRY, b.le);
    L.CommentFields(COMMENTED, b.le);
  }

  /** The stored form of the comment. */
  lemma CommentIsStored(b: Build)
    requires IsOrphanBuild(b)
    ensures
      var ref, v := b.refOf(C.CommentOccurrence(COMMENTED, b.le).ref), ViewOf(b);
      && N.Belongs(v, b.nameOf(READER_REF), ref)
      && v.occurrences[ref].isComment && v.occurrences[ref].parentAuthor == "" && v.occurrences[ref].task in v.tasks
  {
    hide C.IsBuilt, C.Accepts, C.CommentOccurrence, C.PostIndex, V.Built, C.Entries, C.Comments;
    SourceIs();
    PartsAreBuilt(b);
    var o := C.CommentOccurrence(COMMENTED, b.le);
    V.CommentIsListed(b.corpus, [ENTRY], b.le, COMMENTED);
    L.CommentFields(COMMENTED, b.le);
    var r := b.refOf(o.ref);
    assert r in RefsOf(b) && Named(b.corpus.occurrences, b.refOf, r) == o;
    CommentIsWellStored(b, o);
  }

  const SHOWN := R.Origin("list_post_risk_comments", "preview")

  /** The session is bound, and the list of a post's risk comments shows the comment's occurrence. */
  function Showing(b: Build, sessionId: string, binding: T.Binding, revision: string): seq<N.ServiceStep> {
    [N.Other(R.BindSession(sessionId, binding, false))]
    + [N.Show(sessionId, revision, N.OccurrenceCard(b.nameOf(READER_REF), b.refOf(C.CommentOccurrence(COMMENTED, b.le).ref), SHOWN))]
  }

  lemma RunOfTwo(corpora: N.Corpora, reg: R.Registry, a: N.ServiceStep, b: N.ServiceStep)
    ensures N.RunShown(corpora, reg, [a] + [b]) == N.NextShown(corpora, N.NextShown(corpora, reg, a), b)
  {
    hide N.NextShown;
    var s := [a] + [b];
    assert s[0] == a && s[1..] == [b] && [b][1..] == [];
    var reg1 := N.NextShown(corpora, reg, a);
    assert N.RunShown(corpora, N.NextShown(corpora, reg1, b), []) == N.NextShown(corpora, reg1, b);
  }

  /** The first occurrence that a newly bound session is shown gets the first reference. */
  lemma FirstShown(corpora: N.Corpora, nonce: string, sessionId: string, binding: T.Binding, revision: string, account: string, occurrence: string)
    requires sessionId != "" && N.Belongs(corpora(revision), account, occurrence)
    ensures
      var bound := N.NextShown(corpora, R.EmptyRegistry(nonce), N.Other(R.BindSession(sessionId, binding, false)));
      var reg := N.NextShown(corpora, bound, N.Show(sessionId, revision, N.OccurrenceCard(account, occurrence, SHOWN)));
      var token, scope := Tokens.Token("activity", 1, nonce), R.Scope(sessionId, binding, 1);
      && sessionId in reg.scopes && reg.scopes[sessionId] == scope
      && token in reg.records
      && reg.records[token] == R.Record(token, R.KeyFor(scope, R.Occurrence, occurrence, Some(account), revision), SHOWN, [SHOWN])
  {
    hide N.Belongs, Tokens.Token;
    var bound := N.NextShown(corpora, R.EmptyRegistry(nonce), N.Other(R.BindSession(sessionId, binding, false)));
    assert bound == R.EmptyRegistry(nonce).(scopes := map[sessionId := R.Scope(sessionId, binding, 1)]);
    assert SHOWN in N.ALLOWED;
  }

  lemma ShowingShows(b: Build, corpora: N.Corpora, nonce: string, sessionId: string, binding: T.Binding, revision: string)
    requires IsOrphanBuild(b) && corpora(revision) == ViewOf(b) && sessionId != ""
    ensures
      var reg, token := N.RunShown(corpora, R.EmptyRegistry(nonce), Showing(b, sessionId, binding, revision)), Tokens.Token("activity", 1, nonce);
      var r := R.Resolve(reg, sessionId, token, R.Occurrence, revision, None, None);
      && r.Ok? && r.value.first == SHOWN && r.value.origins == [SHOWN]
      && r.value.key.parentAccount == Some(b.nameOf(READER_REF))
      && r.value.key.objectId == b.refOf(C.CommentOccurrence(COMMENTED, b.le).ref)
  {
    CommentIsStored(b);
    hide IsOrphanBuild, ViewOf, C.CommentOccurrence, N.NextShown, N.RunShown, N.Belongs, Tokens.Token;
    var account, ref := b.nameOf(READER_REF), b.refOf(C.CommentOccurrence(COMMENTED, b.le).ref);
    RunOfTwo(corpora, R.EmptyRegistry(nonce), N.Other(R.BindSession(sessionId, binding, false)),
             N.Show(sessionId, revision, N.OccurrenceCard(account, ref, SHOWN)));
    FirstShown(corpora, nonce, sessionId, binding, revision, account, ref);
  }

  /** The reference was shown and resolves, and the tool that reads it refuses it. */
  lemma ShownIsRefused(b: Build, corpora: N.Corpora, nonce: string, sessionId: string, binding: T.Binding, revision: string)
    requires IsOrphanBuild(b) && corpora(revision) == ViewOf(b) && sessionId != ""
    ensures
      var reg, token := N.RunShown(corpora, R.EmptyRegistry(nonce), Showing(b, sessionId, binding, revision)), Tokens.Token("activity", 1, nonce);
      && R.Resolve(reg, sessionId, token, R.Occurrence, revision, None, None).Ok?
      && N.ReadOccurrence(corpora, reg, sessionId, revision, token) == Err("unknown_account")
  {
    hide Showing, IsOrphanBuild, ViewOf, N.RunShown, C.CommentOccurrence, R.Resolve;
    CommentIsStored(b);
    ShowingShows(b, corpora, nonce, sessionId, binding, revision);
    NobodyIsNamed(b);
  }

  lemma NobodyIsNamed(b: Build)
    requires IsOrphanBuild(b)
    ensures "" !in ViewOf(b).accounts
  {
    hide IsBuild;
    NoEmptyName(b);
  }

  /** However the list of the account's comments is paged through, the walk never gets to its end. */
  lemma ListIsStuck(b: Build, reg: R.Registry, sessionId: string, query: R.Query, ids: seq<string>, visits: seq<P.Visit>)
    requires IsOrphanBuild(b) && Q.IsListing(ViewOf(b), b.nameOf(READER_REF), true, None, ids)
    requires R.Inv(reg) && sessionId in reg.scopes && Q.Enough(visits, |ids|)
    requires P.SameGeneration(reg, P.Walk(reg, sessionId, query, ids, Q.Previews(ViewOf(b)), visits, None).reg, sessionId)
    ensures
      var walked := P.Walk(reg, sessionId, query, ids, Q.Previews(ViewOf(b)), visits, None);
      !walked.finished && walked.items != ids
  {
    hide R.Inv, P.Walk, P.SameGeneration, IsBuild, ViewOf, C.CommentOccurrence, Q.Previews, P.Barrier;
    BuiltIsWellFormed(b);
    CommentIsStored(b);
    var ref, v := b.refOf(C.CommentOccurrence(COMMENTED, b.le).ref), ViewOf(b);
    assert Q.Selected(v, b.nameOf(READER_REF), true, None, ref);
    assert ref in ids && !N.AuthorKnown(v.occurrences[ref]);
    Q.OccurrencesEnumeratedIff(v, b.nameOf(READER_REF), true, None, ids, reg, sessionId, query, visits);
  }
}
