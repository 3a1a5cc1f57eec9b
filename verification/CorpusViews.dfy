/** What the account tools read of a built corpus (`AccountActivityRepository`), and what they then answer. */
module CorpusViews {
  import opened Wrappers
  import opened Sorting
  import C = AccountCorpus
  import A = CorpusActivities
  import R = AccountActivityRefs
  import L = CorpusLists
  import N = AccountNavigation
  import V = CorpusValidity

  /** A corpus with what it was built from, the printed references, and the tasks of the report catalogue. */
  datatype Build = Build(corpus: C.Corpus, tasks: seq<string>, jobs: map<string, C.Job>, le: C.Order,
                         nameOf: A.Names, refOf: C.OccurrenceRef -> string, catalog: set<string>)

  ghost predicate IsBuild(b: Build) {
    && (forall t <- b.tasks :: t in b.jobs) && (forall a :: b.nameOf(a) != "")
    && C.IsBuilt(b.corpus, b.tasks, b.jobs, b.le) && C.Accepts(C.Entries(b.tasks, b.jobs))
  }

  function RefsOf(b: Build): set<string> {
    set o <- b.corpus.occurrences :: b.refOf(o.ref)
  }

  function Named(occurrences: seq<C.Occurrence>, refOf: C.OccurrenceRef -> string, ref: string): (o: C.Occurrence)
    requires exists o <- occurrences :: refOf(o.ref) == ref
    ensures o in occurrences && refOf(o.ref) == ref
  {
    if refOf(occurrences[0].ref) == ref then occurrences[0] else Named(occurrences[1..], refOf, ref)
  }

  function StoredAs(o: C.Occurrence, nameOf: A.Names): N.Stored {
    N.Stored(A.NameOf(o.account, nameOf), o.kind.CommentAuthor?, o.taskId, o.post.contentKey, A.NameOf(o.parentAuthor, nameOf))
  }

  function ViewOf(b: Build): N.View {
    var index := C.PostIndex(b.corpus.occurrences);
    N.View(set a <- b.corpus.accounts :: b.nameOf(a.ref),
           map r | r in RefsOf(b) :: StoredAs(Named(b.corpus.occurrences, b.refOf, r), b.nameOf),
           map k | k in index :: A.NameOf(index[k].account, b.nameOf),
           set s <- b.corpus.snapshots :: s.taskId,
           b.catalog)
  }

  lemma PartsAreBuilt(b: Build)
    requires IsBuild(b)
    ensures V.Built(b.corpus, C.Entries(b.tasks, b.jobs), b.le)
  {
    hide C.IsBuilt, C.Accepts, C.Entries, V.Built;
    V.BuildIsBuilt(b.corpus, b.tasks, b.jobs, b.le);
  }

  /** Whoever occurs is listed. */
  lemma ListedByName(b: Build, account: C.AccountRef)
    requires IsBuild(b) && C.AccountFor(account) in b.corpus.accounts
    ensures b.nameOf(account) in ViewOf(b).accounts
  {
    hide IsBuild, RefsOf, C.PostIndex;
    assert C.AccountFor(account).ref == account;
  }

  lemma PostIsWellStored(b: Build, o: C.Occurrence)
    requires IsBuild(b) && o in b.corpus.occurrences && o.kind.PostAuthor?
    ensures o.taskId in ViewOf(b).tasks
    ensures o.account.Some? ==> b.nameOf(o.account.value) in ViewOf(b).accounts
  {
    hide C.IsBuilt, C.Accepts, V.Built, C.Accounts, C.PostOccurrence, ViewOf, C.Entries, C.AuthorOf;
    var entries := C.Entries(b.tasks, b.jobs);
    PartsAreBuilt(b);
    V.OccurrenceComesFrom(b.corpus, entries, b.le, o);
    var e :| e in entries && o == C.PostOccurrence(e, b.le);
    L.PostFields(e, b.le);
    TaskIsListed(b, e);
    if o.account.Some? {
      AuthorIsListed(entries, e);
      V.AuthorsAreListed(b.corpus, entries, b.le, C.AccountFor(o.account.value));
      ListedByName(b, o.account.value);
    }
  }

  lemma TaskIsListed(b: Build, e: C.Entry)
    requires IsBuild(b) && e in C.Entries(b.tasks, b.jobs)
    ensures e.task in ViewOf(b).tasks
  {
    hide C.IsBuilt, C.Accepts, C.Entries, C.PostIndex, RefsOf, V.Built;
    PartsAreBuilt(b);
    V.BuiltAccepts(b.corpus, C.Entries(b.tasks, b.jobs), b.le);
  }

  lemma AuthorIsListed(entries: seq<C.Entry>, e: C.Entry)
    requires e in entries && C.AuthorOf(e.row).Some?
    ensures C.AccountFor(C.AuthorOf(e.row).value) in C.Accounts(entries)
  {
    hide C.AuthorOf, C.Comments, C.CommentAuthorOf;
  }

  lemma CommentIsWellStored(b: Build, o: C.Occurrence)
    requires IsBuild(b) && o in b.corpus.occurrences && o.kind.CommentAuthor?
    ensures
      var v := ViewOf(b);
      && o.taskId in v.tasks
      && (o.account.Some? ==> b.nameOf(o.account.value) in v.accounts)
      && (o.parentAuthor.Some? ==> b.nameOf(o.parentAuthor.value) in v.accounts)
      && (o.taskId, o.post.contentKey) in v.postAuthors
      && v.postAuthors[(o.taskId, o.post.contentKey)] == A.NameOf(o.parentAuthor, b.nameOf)
  {
    hide C.IsBuilt, C.Accepts, V.Built, C.Accounts, C.PostOccurrence, C.CommentOccurrence, C.Comments, C.Entries, C.AuthorOf, C.CommentAuthorOf, C.PostIndex, RefsOf;
    var entries := C.Entries(b.tasks, b.jobs);
    PartsAreBuilt(b);
    V.OccurrenceComesFrom(b.corpus, entries, b.le, o);
    var x :| x in C.Comments(entries) && o == C.CommentOccurrence(x, b.le);
    L.CommentFields(x, b.le);
    L.PostFields(x.entry, b.le);
    V.CommentComesFrom(entries, x);
    TaskIsListed(b, x.entry);
    V.IndexedParent(b.corpus, entries, b.le, x.entry);
    if o.account.Some? {
      V.CommentAuthorIsListed(entries, x);
      V.AuthorsAreListed(b.corpus, entries, b.le, C.AccountFor(o.account.value));
      ListedByName(b, o.account.value);
    }
    if o.parentAuthor.Some? {
      AuthorIsListed(entries, x.entry);
      V.AuthorsAreListed(b.corpus, entries, b.le, C.AccountFor(o.parentAuthor.value));
      ListedByName(b, o.parentAuthor.value);
    }
  }

  /** The post occurrence that a comment of a build stands under. */
  lemma PostOfComment(b: Build, o: C.Occurrence) returns (p: C.Occurrence)
    requires IsBuild(b) && o in b.corpus.occurrences && o.kind.CommentAuthor?
    ensures p in b.corpus.occurrences && p.kind.PostAuthor? && p.taskId == o.taskId && p.post.contentKey == o.post.contentKey
    ensures p.account == o.parentAuthor
  {
    hide C.IsBuilt, C.Accepts, C.PostOccurrence, C.CommentOccurrence, C.Entries, C.Comments, V.Built;
    var entries := C.Entries(b.tasks, b.jobs);
    PartsAreBuilt(b);
    V.OccurrenceComesFrom(b.corpus, entries, b.le, o);
    var x :| x in C.Comments(entries) && o == C.CommentOccurrence(x, b.le);
    V.CommentComesFrom(entries, x);
    L.CommentFields(x, b.le);
    L.PostFields(x.entry, b.le);
    V.PostIsListed(b.corpus, entries, b.le, x.entry);
    p := C.PostOccurrence(x.entry, b.le);
  }

  lemma NoEmptyName(b: Build)
    requires IsBuild(b)
    ensures "" !in ViewOf(b).accounts
  {
    hide C.IsBuilt, C.Accepts, C.Entries, C.PostIndex, RefsOf;
  }

  lemma IsWellStored(b: Build, o: C.Occurrence)
    requires IsBuild(b) && o in b.corpus.occurrences
    ensures N.StoredOk(ViewOf(b), StoredAs(o, b.nameOf))
  {
    hide ViewOf, IsBuild;
    if o.kind.PostAuthor? {
      PostIsWellStored(b, o);
    } else {
      CommentIsWellStored(b, o);
    }
  }

  /** A built corpus has all that the account tools rely on. */
  lemma BuiltIsWellFormed(b: Build)
    requires IsBuild(b)
    ensures N.WellFormed(ViewOf(b))
  {
    hide IsBuild, C.PostIndex, N.StoredOk, StoredAs;
    NoEmptyName(b);
    forall r | r in ViewOf(b).occurrences ensures N.StoredOk(ViewOf(b), ViewOf(b).occurrences[r]) {
      IsWellStored(b, Named(b.corpus.occurrences, b.refOf, r));
    }
  }

  /** Every revision is the digest of a built corpus. */
  ghost predicate AllBuilt(corpora: N.Corpora, buildOf: string -> Build) {
    forall revision :: IsBuild(buildOf(revision)) && corpora(revision) == ViewOf(buildOf(revision))
  }

  /** What navigation assumes of the corpora holds of all built ones. */
  lemma BuiltCorporaAreWellFormed(corpora: N.Corpora, buildOf: string -> Build)
    requires AllBuilt(corpora, buildOf)
    ensures N.AllWellFormed(corpora)
  {
    hide IsBuild, ViewOf, N.WellFormed;
    forall revision ensures N.WellFormed(corpora(revision)) {
      assert IsBuild(buildOf(revision)) && corpora(revision) == ViewOf(buildOf(revision));
      BuiltIsWellFormed(buildOf(revision));
    }
  }

  /**
    From an empty process, after any run over built corpora and reports of distinct tasks: every account
    reference that resolves is answered by the tool that reads its kind, and refused only for a comment
    under a post of unknown author.
  */
  lemma ReachedIsAnswered(corpora: N.Corpora, buildOf: string -> Build, nonce: string, reports: seq<N.ReportPosts>,
                          steps: seq<N.ServiceStep>, sessionId: string, token: string, kind: R.Kind, revision: string)
    requires AllBuilt(corpora, buildOf) && N.DistinctTasks(reports)
    requires R.Resolve(N.RunShown(corpora, R.EmptyRegistry(nonce), steps), sessionId, token, kind, revision, None, None).Ok?
    ensures N.Answered(corpora, N.RunShown(corpora, R.EmptyRegistry(nonce), steps), reports, sessionId, token, kind, revision)
  {
    hide AllBuilt, N.AllWellFormed, N.DistinctTasks, N.RunShown, N.Answered, R.Resolve;
    BuiltCorporaAreWellFormed(corpora, buildOf);
    N.ReachedIsAnswered(corpora, nonce, reports, steps, sessionId, token, kind, revision);
  }

  /** In a build the author of a comment's post is known exactly if the post's row has a resolved author. */
  lemma KnownIffResolved(b: Build, x: C.CommentEntry)
    requires IsBuild(b)
    ensures N.AuthorKnown(StoredAs(C.CommentOccurrence(x, b.le), b.nameOf)) <==> C.AuthorOf(x.entry.row).Some?
  {
    hide C.CommentOccurrence, C.IsBuilt, C.Accepts, C.AuthorOf;
    L.CommentFields(x, b.le);
  }
}
