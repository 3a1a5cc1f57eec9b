/** A built corpus passes its own validation exactly when no comment predates its post. */
module CorpusValidity {
  import opened Wrappers
  import opened Sorting
  import opened AccountCorpus
  import opened CorpusLists

  // ---- membership in the lists of a build ----

  lemma {:induction false} EntryComesFrom(tasks: seq<string>, jobs: map<string, Job>, e: Entry)
    requires forall t <- tasks :: t in jobs
    requires e in Entries(tasks, jobs)
    ensures e.task in tasks && e.job == jobs[e.task] && e.row in e.job.rows
  {
    assert tasks[0] in tasks && forall t <- tasks[1..] :: t in tasks;
    if e !in EntriesOf(tasks[0], jobs[tasks[0]]) {
      EntryComesFrom(tasks[1..], jobs, e);
    }
  }

  lemma {:induction false} CommentComesFrom(entries: seq<Entry>, x: CommentEntry)
    requires x in Comments(entries)
    ensures x.entry in entries && x.comment in x.entry.row.comments
    decreases |entries|
  {
    var init, last := entries[..|entries| - 1], entries[|entries| - 1];
    assert entries == init + [last];
    if x !in CommentsOf(last) {
      CommentComesFrom(init, x);
    }
  }

  // ---- the parts of a build ----

  /** The facts about a build that the proofs below need, without the corpus's digests. */
  ghost predicate Built(c: Corpus, entries: seq<Entry>, le: Order) {
    && Accepts(entries)
    && Enumerates(c.accounts, Accounts(entries))
    && Enumerates(c.aliases, Aliases(entries, le))
    && Enumerates(c.occurrences, Occurrences(entries, le))
    && Enumerates(c.interactions, Interactions(entries, le))
    && forall e <- entries ::
         && e.task in c.tasks
         && exists s <- c.snapshots :: s.ref == SnapshotRefOf(e.task, e.job, le) && s.taskId == e.task
  }

  lemma PostIsListed(c: Corpus, entries: seq<Entry>, le: Order, e: Entry)
    requires Built(c, entries, le) && e in entries
    ensures PostOccurrence(e, le) in c.occurrences
  {
    hide PostOccurrence, CommentOccurrence, Accepts, Accounts, Aliases, Interactions, Comments, SnapshotRefOf, NoDuplicates;
    assert PostOccurrence(e, le) in Occurrences(entries, le);
    assert PostOccurrence(e, le) in Elements(c.occurrences);
  }

  lemma CommentIsListed(c: Corpus, entries: seq<Entry>, le: Order, x: CommentEntry)
    requires Built(c, entries, le) && x in Comments(entries)
    ensures CommentOccurrence(x, le) in c.occurrences
  {
    hide PostOccurrence, CommentOccurrence, Accepts, Accounts, Aliases, Interactions, Comments, SnapshotRefOf, NoDuplicates;
    assert CommentOccurrence(x, le) in Occurrences(entries, le);
    assert CommentOccurrence(x, le) in Elements(c.occurrences);
  }

  ghost predicate IsPostOf(entries: seq<Entry>, le: Order, o: Occurrence) {
    exists e <- entries :: o == PostOccurrence(e, le)
  }

  ghost predicate IsCommentOf(entries: seq<Entry>, le: Order, o: Occurrence) {
    exists x <- Comments(entries) :: o == CommentOccurrence(x, le)
  }

  /** Every occurrence of a build is the one of a post or the one of a comment. */
  lemma OccurrenceComesFrom(c: Corpus, entries: seq<Entry>, le: Order, o: Occurrence)
    requires Built(c, entries, le) && o in c.occurrences
    ensures if o.kind.PostAuthor? then IsPostOf(entries, le, o) else IsCommentOf(entries, le, o)
  {
    hide Accepts, Accounts, Aliases, Interactions, Comments, SnapshotRefOf, NoDuplicates;
    assert o in Elements(c.occurrences) && o in Occurrences(entries, le);
  }

  // ---- uniqueness ----

  /** Two posts of a build that share task and key, or platform and key, are one. */
  lemma PostsAgree(c: Corpus, entries: seq<Entry>, le: Order, o: Occurrence, p: Occurrence)
    requires Built(c, entries, le) && o in c.occurrences && p in c.occurrences && o.kind.PostAuthor? && p.kind.PostAuthor?
    requires (o.taskId == p.taskId || o.post.platform == p.post.platform) && o.post.contentKey == p.post.contentKey
    ensures o == p
  {
    hide PostOccurrence, Comments, Accepts;
    OccurrenceComesFrom(c, entries, le, o);
    OccurrenceComesFrom(c, entries, le, p);
    var a :| a in entries && o == PostOccurrence(a, le);
    var b :| b in entries && p == PostOccurrence(b, le);
    PostFields(a, le);
    PostFields(b, le);
    SamePost(entries, le, a, b);
  }

  lemma CommentsAgree(c: Corpus, entries: seq<Entry>, le: Order, o: Occurrence, p: Occurrence)
    requires Built(c, entries, le) && o in c.occurrences && p in c.occurrences && o.kind.CommentAuthor? && p.kind.CommentAuthor?
    requires (o.taskId == p.taskId || o.post.platform == p.post.platform) && CommentIdOf(o) == CommentIdOf(p)
    ensures o == p
  {
    hide CommentOccurrence, Comments, Accepts;
    OccurrenceComesFrom(c, entries, le, o);
    OccurrenceComesFrom(c, entries, le, p);
    var a :| a in Comments(entries) && o == CommentOccurrence(a, le);
    var b :| b in Comments(entries) && p == CommentOccurrence(b, le);
    CommentFields(a, le);
    CommentFields(b, le);
    SameComment(entries, le, a, b);
  }

  lemma RefsMatchFields(c: Corpus, entries: seq<Entry>, le: Order, o: Occurrence)
    requires Built(c, entries, le) && o in c.occurrences
    ensures o.ref.kind == o.kind && o.ref.taskId == o.taskId
    ensures o.kind.PostAuthor? ==> o.ref.contentKey == o.post.contentKey
    ensures o.kind.CommentAuthor? ==> o.ref.commentId == Some(CommentIdOf(o))
  {
    hide CommentOccurrence, PostOccurrence, Comments, Accepts;
    OccurrenceComesFrom(c, entries, le, o);
    if o.kind.PostAuthor? {
      var e :| e in entries && o == PostOccurrence(e, le);
      PostFields(e, le);
    } else {
      var x :| x in Comments(entries) && o == CommentOccurrence(x, le);
      CommentFields(x, le);
    }
  }

  lemma RefsAgree(c: Corpus, entries: seq<Entry>, le: Order, o: Occurrence, p: Occurrence)
    requires Built(c, entries, le) && o in c.occurrences && p in c.occurrences && o.ref == p.ref
    ensures o == p
  {
    hide Built;
    RefsMatchFields(c, entries, le, o);
    RefsMatchFields(c, entries, le, p);
    if o.kind.PostAuthor? {
      PostsAgree(c, entries, le, o, p);
    } else {
      CommentsAgree(c, entries, le, o, p);
    }
  }

  lemma {:induction false} PartsOf(s: seq<Occurrence>)
    ensures forall o :: o in PostsIn(s) <==> o in s && o.kind.PostAuthor?
    ensures forall o :: o in CommentsIn(s) <==> o in s && o.kind.CommentAuthor?
    ensures NoDuplicates(s) ==> NoDuplicates(PostsIn(s)) && NoDuplicates(CommentsIn(s))
    decreases |s|
  {
    if s != [] {
      var init, last := s[..|s| - 1], s[|s| - 1];
      assert s == init + [last];
      PartsOf(init);
      if NoDuplicates(s) {
        assert NoDuplicates(init);
        forall i | 0 <= i < |init| ensures init[i] != last {
          assert s[i] != s[|s| - 1];
        }
      }
    }
  }

  lemma OccurrencesAreUnique(c: Corpus, entries: seq<Entry>, le: Order)
    requires Built(c, entries, le)
    ensures OccurrencesUnique(c)
  {
    hide Built, PostsIn, CommentsIn;
    BuiltListsOnce(c, entries, le);
    var s := c.occurrences;
    PartsOf(s);
    forall o, p | o in s && p in s && OccurrenceKey(o) == OccurrenceKey(p) ensures o == p {
      RefsAgree(c, entries, le, o, p);
    }
    UniqueFromDistinct(s, OccurrenceKey);
    forall o, p | o in PostsIn(s) && p in PostsIn(s) && GlobalPost(o) == GlobalPost(p) ensures o == p {
      PostsAgree(c, entries, le, o, p);
    }
    UniqueFromDistinct(PostsIn(s), GlobalPost);
    forall o, p | o in CommentsIn(s) && p in CommentsIn(s) && TaskComment(o) == TaskComment(p) ensures o == p {
      CommentsAgree(c, entries, le, o, p);
    }
    UniqueFromDistinct(CommentsIn(s), TaskComment);
    forall o, p | o in CommentsIn(s) && p in CommentsIn(s) && GlobalComment(o) == GlobalComment(p) ensures o == p {
      CommentsAgree(c, entries, le, o, p);
    }
    UniqueFromDistinct(CommentsIn(s), GlobalComment);
  }

  lemma BuiltListsOnce(c: Corpus, entries: seq<Entry>, le: Order)
    requires Built(c, entries, le)
    ensures NoDuplicates(c.occurrences) && NoDuplicates(c.accounts) && NoDuplicates(c.aliases) && NoDuplicates(c.interactions)
  {
    hide Accepts, Accounts, Aliases, Interactions, Occurrences, SnapshotRefOf;
  }

  // ---- parents ----

  lemma {:induction false} PostIndexSpec(s: seq<Occurrence>)
    ensures
      var index := PostIndex(s);
      && (forall k <- index :: index[k] in s && index[k].kind.PostAuthor? && (index[k].taskId, index[k].post.contentKey) == k)
      && (forall o <- s :: o.kind.PostAuthor? ==> (o.taskId, o.post.contentKey) in index)
    decreases |s|
  {
    if s != [] {
      var init, o, index := s[..|s| - 1], s[|s| - 1], PostIndex(s);
      PostIndexSpec(init);
      assert s == init + [o];
      forall k | k in index
        ensures index[k] in s && index[k].kind.PostAuthor? && (index[k].taskId, index[k].post.contentKey) == k
      {
        if o.kind.PostAuthor? && k == (o.taskId, o.post.contentKey) {
          assert index[k] == o && s[|init|] == o;
        } else {
          assert k in PostIndex(init) && index[k] == PostIndex(init)[k] && index[k] in init;
        }
      }
    }
  }

  /** The index of a build leads from every entry to its own post. */
  lemma IndexedParent(c: Corpus, entries: seq<Entry>, le: Order, e: Entry)
    requires Built(c, entries, le) && e in entries
    ensures
      var index := PostIndex(c.occurrences);
      (e.task, e.row.contentKey) in index && index[(e.task, e.row.contentKey)] == PostOccurrence(e, le)
  {
    hide Built, PostOccurrence, PostIndex;
    PostIndexSpec(c.occurrences);
    PostIsListed(c, entries, le, e);
    PostFields(e, le);
    PostsAgree(c, entries, le, PostOccurrence(e, le), PostIndex(c.occurrences)[(e.task, e.row.contentKey)]);
  }

  /** A comment's parent is the post it was found under; what remains to be checked is the time. */
  lemma ParentIsOk(c: Corpus, entries: seq<Entry>, le: Order, x: CommentEntry)
    requires Built(c, entries, le) && x in Comments(entries)
    ensures ParentOk(CommentOccurrence(x, le), PostIndex(c.occurrences), le)
       <==> !Predates(x.comment.time, x.entry.row.publishedAt, le)
  {
    hide Built, PostOccurrence, CommentOccurrence, PostIndex, Comments;
    CommentComesFrom(entries, x);
    CommentFields(x, le);
    PostFields(x.entry, le);
    IndexedParent(c, entries, le, x.entry);
  }

  // ---- single occurrences ----

  lemma AcceptedRow(entries: seq<Entry>, e: Entry)
    requires Accepts(entries) && e in entries
    ensures RowOk(e.row) && forall c <- e.row.comments :: CommentOk(e.row, c)
  {
  }

  lemma AuthorsAreListed(c: Corpus, entries: seq<Entry>, le: Order, account: Account)
    requires Built(c, entries, le) && account in Accounts(entries)
    ensures account in c.accounts
  {
    hide Accepts, Accounts, Aliases, Interactions, Occurrences, SnapshotRefOf, NoDuplicates;
    assert account in Elements(c.accounts);
  }

  lemma BuiltAccepts(c: Corpus, entries: seq<Entry>, le: Order)
    requires Built(c, entries, le)
    ensures Accepts(entries)
    ensures forall e <- entries ::
      && e.task in c.tasks
      && exists s <- c.snapshots :: s.ref == SnapshotRefOf(e.task, e.job, le) && s.taskId == e.task
  {
    hide Accepts, Enumerates, SnapshotRefOf;
  }

  lemma PostIsOk(c: Corpus, entries: seq<Entry>, le: Order, e: Entry)
    requires Built(c, entries, le) && e in entries
    ensures OccurrenceOk(c, PostOccurrence(e, le), le)
  {
    hide Built, SnapshotRefOf, Accepts, PostIndex, ParentOk;
    BuiltAccepts(c, entries, le);
    AcceptedRow(entries, e);
    if AuthorOf(e.row).Some? {
      AuthorsAreListed(c, entries, le, AccountFor(AuthorOf(e.row).value));
    }
  }

  lemma CommentIsOkIff(c: Corpus, entries: seq<Entry>, le: Order, x: CommentEntry)
    requires Built(c, entries, le) && x in Comments(entries)
    ensures OccurrenceOk(c, CommentOccurrence(x, le), le) <==> !Predates(x.comment.time, x.entry.row.publishedAt, le)
  {
    hide Built, SnapshotRefOf, Accepts, PostIndex, ParentOk, Comments, Predates, PostOccurrence;
    BuiltAccepts(c, entries, le);
    CommentComesFrom(entries, x);
    AcceptedRow(entries, x.entry);
    assert CommentOk(x.entry.row, x.comment);
    ParentIsOk(c, entries, le, x);
    if CommentAuthorOf(x.entry.row, x.comment).Some? {
      CommentAuthorIsListed(entries, x);
      AuthorsAreListed(c, entries, le, AccountFor(CommentAuthorOf(x.entry.row, x.comment).value));
    }
  }

  lemma CommentAuthorIsListed(entries: seq<Entry>, x: CommentEntry)
    requires x in Comments(entries) && CommentAuthorOf(x.entry.row, x.comment).Some?
    ensures AccountFor(CommentAuthorOf(x.entry.row, x.comment).value) in Accounts(entries)
  {
    hide Comments, CommentAuthorOf, AuthorOf;
  }

  /** No comment of the source is older than its post. */
  ghost predicate NothingPredates(entries: seq<Entry>, le: Order) {
    forall x <- Comments(entries) :: !Predates(x.comment.time, x.entry.row.publishedAt, le)
  }

  lemma OccurrencesOkIff(c: Corpus, entries: seq<Entry>, le: Order)
    requires Built(c, entries, le)
    ensures (forall o <- c.occurrences :: OccurrenceOk(c, o, le)) <==> NothingPredates(entries, le)
  {
    hide Built, OccurrenceOk, Predates, PostOccurrence, CommentOccurrence, Comments;
    if NothingPredates(entries, le) {
      forall o | o in c.occurrences ensures OccurrenceOk(c, o, le) {
        OccurrenceComesFrom(c, entries, le, o);
        if o.kind.PostAuthor? {
          var e :| e in entries && o == PostOccurrence(e, le);
          PostIsOk(c, entries, le, e);
        } else {
          var x :| x in Comments(entries) && o == CommentOccurrence(x, le);
          CommentIsOkIff(c, entries, le, x);
        }
      }
    }
    if forall o <- c.occurrences :: OccurrenceOk(c, o, le) {
      forall x | x in Comments(entries) ensures !Predates(x.comment.time, x.entry.row.publishedAt, le) {
        CommentIsListed(c, entries, le, x);
        CommentIsOkIff(c, entries, le, x);
      }
    }
  }

  // ---- accounts, aliases, interactions ----

  lemma AccountComesFrom(entries: seq<Entry>, a: Account)
    requires a in Accounts(entries)
    ensures a == AccountFor(a.ref)
  {
    hide Comments;
  }

  lemma AccountsAreOk(c: Corpus, entries: seq<Entry>, le: Order)
    requires Built(c, entries, le)
    ensures AccountsOk(c)
  {
    hide Accepts, Accounts, Aliases, Interactions, Occurrences, SnapshotRefOf;
    forall a | a in c.accounts ensures a == AccountFor(a.ref) {
      assert a in Elements(c.accounts);
      AccountComesFrom(entries, a);
    }
    UniqueFromDistinct(c.accounts, AccountKey);
  }

  lemma AliasIsOk(c: Corpus, entries: seq<Entry>, le: Order, a: Alias)
    requires Built(c, entries, le) && a in Aliases(entries, le)
    ensures AliasOk(c, a)
  {
    hide Built, PostOccurrence, CommentOccurrence, Comments, Steps;
    StepsAre(entries);
    var s :| s in Steps(entries) && IsNamed(s) && a == AliasAt(s, le).value;
    match s {
      case AtPost(e) =>
        PostIsListed(c, entries, le, e);
        PostFields(e, le);
      case AtComment(x) =>
        CommentIsListed(c, entries, le, x);
        CommentFields(x, le);
    }
  }

  lemma AliasRefDecides(entries: seq<Entry>, le: Order, a: Alias)
    requires a in Aliases(entries, le)
    ensures a == Alias(a.ref, a.ref.account, a.ref.nickname, a.ref.observedAt, a.ref.capturedAt, a.ref.source, a.ref.source.taskId)
  {
    hide Steps, PostOccurrence, CommentOccurrence;
    var s :| s in Steps(entries) && IsNamed(s) && a == AliasAt(s, le).value;
    match s {
      case AtPost(e) => PostFields(e, le);
      case AtComment(x) => CommentFields(x, le);
    }
  }

  lemma AliasesAreOk(c: Corpus, entries: seq<Entry>, le: Order)
    requires Built(c, entries, le)
    ensures AliasesOk(c)
  {
    hide Accepts, Accounts, Aliases, Interactions, Occurrences, SnapshotRefOf, AliasOk;
    forall a | a in c.aliases ensures AliasOk(c, a) && a in Aliases(entries, le) {
      assert a in Elements(c.aliases);
      AliasIsOk(c, entries, le, a);
    }
    forall a, b | a in c.aliases && b in c.aliases && AliasKey(a) == AliasKey(b) ensures a == b {
      AliasRefDecides(entries, le, a);
      AliasRefDecides(entries, le, b);
    }
    UniqueFromDistinct(c.aliases, AliasKey);
  }

  lemma InteractionIsOk(c: Corpus, entries: seq<Entry>, le: Order, x: CommentEntry)
    requires Built(c, entries, le) && x in Comments(entries) && Interacts(x)
    ensures InteractionOk(c, InteractionOf(x, le))
  {
    hide Built, Comments, SnapshotRefOf;
    CommentComesFrom(entries, x);
    CommentIsListed(c, entries, le, x);
    PostIsListed(c, entries, le, x.entry);
    var comment, post := CommentOccurrence(x, le), PostOccurrence(x.entry, le);
    assert comment in c.occurrences && post in c.occurrences;
  }

  lemma InteractionsAreOk(c: Corpus, entries: seq<Entry>, le: Order)
    requires Built(c, entries, le)
    ensures InteractionsOk(c)
  {
    hide Accepts, Accounts, Aliases, Occurrences, SnapshotRefOf, InteractionOk, Comments, PostOccurrence, CommentOccurrence;
    forall a | a in c.interactions ensures InteractionOk(c, a) && InteractionFromRef(a) {
      assert a in Elements(c.interactions);
      var x :| x in Comments(entries) && Interacts(x) && a == InteractionOf(x, le);
      InteractionIsOk(c, entries, le, x);
    }
    UniqueFromDistinct(c.interactions, InteractionKey);
  }

  predicate InteractionFromRef(a: Interaction) {
    a == Interaction(a.ref, a.ref.taskId, a.ref.snapshot, a.ref.actor, a.ref.postAuthor, a.ref.comment, a.ref.parentPost)
  }

  // ---- snapshots and digests ----

  lemma SnapshotsAreOk(c: Corpus, tasks: seq<string>, jobs: map<string, Job>, le: Order)
    requires forall t <- tasks :: t in jobs
    requires Lists(tasks, Elements(tasks), le) && IsBuilt(c, tasks, jobs, le)
    ensures SnapshotsOk(c, le)
  {
    hide Entries, Accounts, Aliases, Occurrences, Interactions, HashesOf, CapturedAt, CoverageOf, Sorted;
    forall i, j | 0 <= i < j < |c.snapshots| ensures SnapshotKey(c.snapshots[i]) != SnapshotKey(c.snapshots[j]) {
      assert tasks[i] != tasks[j];
      assert c.snapshots[i].ref.taskId == tasks[i] && c.snapshots[j].ref.taskId == tasks[j];
    }
    assert forall i | 0 <= i < |tasks| :: c.snapshots[i].taskId == tasks[i];
    assert (set s <- c.snapshots :: s.taskId) == Elements(tasks) by {
      forall t | t in tasks ensures exists s <- c.snapshots :: s.taskId == t {
        var i :| 0 <= i < |tasks| && tasks[i] == t;
        assert c.snapshots[i] in c.snapshots;
      }
    }
  }

  lemma BuildIsBuilt(c: Corpus, tasks: seq<string>, jobs: map<string, Job>, le: Order)
    requires forall t <- tasks :: t in jobs
    requires IsBuilt(c, tasks, jobs, le) && Accepts(Entries(tasks, jobs))
    ensures Built(c, Entries(tasks, jobs), le)
  {
    hide Entries, Accepts, Enumerates, Accounts, Aliases, Occurrences, Interactions, HashesOf, SnapshotRefOf, OnePerStep, Steps, Comments,
      FoundOccurrence, FoundAlias, FoundInteraction, IsNamed, IsInteraction;
    var entries := Entries(tasks, jobs);
    NothingIsMerged(c, tasks, jobs, le);
    OccurrencesListed(c.occurrences, entries, le);
    AliasesListed(c.aliases, entries, le);
    InteractionsListed(c.interactions, entries, le);
    forall e | e in entries
      ensures e.task in c.tasks && exists s <- c.snapshots :: s.ref == SnapshotRefOf(e.task, e.job, le) && s.taskId == e.task
    {
      EntryComesFrom(tasks, jobs, e);
      var i :| 0 <= i < |tasks| && tasks[i] == e.task;
      assert c.snapshots[i] in c.snapshots;
      assert c.snapshots[i].taskId == e.task by {
        RefNamesItsTask(tasks[i], jobs[tasks[i]], le);
      }
    }
  }

  lemma RefNamesItsTask(task: string, job: Job, le: Order)
    ensures SnapshotRefOf(task, job, le).taskId == task
  {
  }

  /**
    Builder meets validator: for any rows that the builder accepts, whatever the order of its lists,
    the corpus passes every check of the validation exactly when no comment predates its post.
  */
  lemma BuiltIsValidIff(c: Corpus, tasks: seq<string>, jobs: map<string, Job>, le: Order)
    requires TotalOrder(le) && Lists(tasks, Elements(tasks), le) && forall t <- tasks :: t in jobs
    requires Accepts(Entries(tasks, jobs)) && IsBuilt(c, tasks, jobs, le)
    ensures IsValid(c, le) <==> NothingPredates(Entries(tasks, jobs), le)
  {
    var entries := Entries(tasks, jobs);
    BuildIsBuilt(c, tasks, jobs, le);
    SnapshotsAreOk(c, tasks, jobs, le);
    assert HashesOk(c);
    hide Built, SnapshotsOk, AccountsOk, OccurrencesUnique, AliasesOk, InteractionsOk, HashesOk, OccurrenceOk, NothingPredates, IsBuilt, Accepts, TotalOrder, Lists, Entries;
    AccountsAreOk(c, entries, le);
    OccurrencesAreUnique(c, entries, le);
    AliasesAreOk(c, entries, le);
    InteractionsAreOk(c, entries, le);
    OccurrencesOkIff(c, entries, le);
  }

  // ---- a concrete source that is accepted and then found invalid ----

  const AUTHOR := SourceAccount("u", "name")

  const EARLY := SourceComment("c", "", "", AUTHOR, "text", "1", "completed", "none", "")

  const POST := Row(DOUYIN, "p", "", "title", "", "2", "pass", "none", AUTHOR, "3", "3", "3", [EARLY])

  const JOBS: map<string, Job> := map["t" := Job("name", "3", "", [POST])]

  lemma EarlyCommentIsAccepted()
    ensures Accepts(Entries(["t"], JOBS)) && !NothingPredates(Entries(["t"], JOBS), StringOrder)
  {
    var e := Entry("t", JOBS["t"], POST);
    assert EntriesOf("t", JOBS["t"]) == [e];
    assert Entries([], JOBS) == [];
    assert Entries(["t"], JOBS) == [e];
    var x := CommentEntry(e, EARLY);
    assert CommentsOf(e) == [x];
    assert Comments([]) == [] && Comments([e]) == [x];
    assert Predates("1", "2", StringOrder) by {
      assert "1"[0] < "2"[0];
    }
    assert RowOk(POST) && CommentOk(POST, EARLY);
  }

  /** The builder accepts this source, and whatever it builds fails the validation. */
  lemma EarlyCommentIsInvalid(c: Corpus)
    requires IsBuilt(c, ["t"], JOBS, StringOrder)
    ensures Accepts(Entries(["t"], JOBS)) && !IsValid(c, StringOrder)
  {
    hide IsBuilt, Accepts, Entries, NothingPredates, IsValid;
    StringOrderIsTotal();
    EarlyCommentIsAccepted();
    assert Lists(["t"], Elements(["t"]), StringOrder);
    BuiltIsValidIff(c, ["t"], JOBS, StringOrder);
  }
}
