/** Building and validating the corpus, step by step (`build_account_fixture`, `AccountCorpus._validate`). */
module CorpusBuilder {
  import opened Wrappers
  import opened Sorting
  import opened AccountCorpus

  // ---- building ----

  method CommentsAreOk(r: Row) returns (ok: bool)
    ensures ok <==> forall c <- r.comments :: CommentOk(r, c)
  {
    for i := 0 to |r.comments|
      invariant forall c <- r.comments[..i] :: CommentOk(r, c)
    {
      assert r.comments[i] in r.comments && r.comments[..i + 1] == r.comments[..i] + [r.comments[i]];
      if !CommentOk(r, r.comments[i]) {
        return false;
      }
    }
    assert r.comments[..|r.comments|] == r.comments;
    return true;
  }

  method RowsAreOk(entries: seq<Entry>) returns (ok: bool)
    ensures ok <==> forall e <- entries :: RowOk(e.row) && forall c <- e.row.comments :: CommentOk(e.row, c)
  {
    hide RowOk, CommentOk;
    for i := 0 to |entries|
      invariant forall e <- entries[..i] :: RowOk(e.row) && forall c <- e.row.comments :: CommentOk(e.row, c)
    {
      assert entries[i] in entries && entries[..i + 1] == entries[..i] + [entries[i]];
      var commentsOk := CommentsAreOk(entries[i].row);
      if !RowOk(entries[i].row) || !commentsOk {
        return false;
      }
    }
    assert entries[..|entries|] == entries;
    return true;
  }

  /** The refusals of the builder. */
  method Accept(entries: seq<Entry>) returns (ok: bool)
    ensures ok <==> Accepts(entries)
  {
    hide RowOk, CommentOk, UniqueBy, Comments;
    ok := RowsAreOk(entries);
    if ok {
      var posts := AllDistinct(entries, PostInTask);
      var globalPosts := AllDistinct(entries, PostAnywhere);
      var comments := AllDistinct(Comments(entries), CommentInTask);
      var globalComments := AllDistinct(Comments(entries), CommentAnywhere);
      ok := posts && globalPosts && comments && globalComments;
    }
  }

  /** What the steps so far have appended to the three lists. */
  ghost predicate Collected(steps: seq<Step>, le: Order, occurrences: seq<Occurrence>, aliases: seq<Alias>, interactions: seq<Interaction>) {
    && occurrences == Gather(steps, FoundOccurrence(le))
    && aliases == Gather(steps, FoundAlias(le))
    && interactions == Gather(steps, FoundInteraction(le))
  }

  lemma OneMoreStep(steps: seq<Step>, s: Step, le: Order, occurrences: seq<Occurrence>, aliases: seq<Alias>, interactions: seq<Interaction>)
    requires Collected(steps, le, occurrences, aliases, interactions)
    ensures Collected(steps + [s], le, occurrences + [OccurrenceAt(s, le)],
                      if IsNamed(s) then aliases + [AliasAt(s, le).value] else aliases,
                      if IsInteraction(s) then interactions + [InteractionAt(s, le).value] else interactions)
  {
    hide OccurrenceAt, IsNamed, IsInteraction, PostOccurrence, CommentOccurrence;
    assert (steps + [s])[..|steps|] == steps;
  }

  lemma StepsGrow(entries: seq<Entry>, i: nat)
    requires i < |entries|
    ensures Steps(entries[..i + 1]) == Steps(entries[..i]) + StepsOf(entries[i])
  {
    assert entries[..i + 1][..i] == entries[..i];
  }

  /** The loops over posts and their comments. */
  method Collect(entries: seq<Entry>, le: Order)
    returns (occurrences: seq<Occurrence>, aliases: seq<Alias>, interactions: seq<Interaction>)
    ensures Collected(Steps(entries), le, occurrences, aliases, interactions)
  {
    hide PostOccurrence, CommentOccurrence, AuthorOf, CommentAuthorOf, Collected, Steps;
    occurrences, aliases, interactions := [], [], [];
    assert Collected(Steps(entries[..0]), le, [], [], []) by { NothingCollected(entries, le); }
    for i := 0 to |entries|
      invariant Collected(Steps(entries[..i]), le, occurrences, aliases, interactions)
    {
      var e := entries[i];
      ghost var before := Steps(entries[..i]);
      OneMoreStep(before, AtPost(e), le, occurrences, aliases, interactions);
      var post := PostOccurrence(e, le);
      occurrences := occurrences + [post];
      if AuthorOf(e.row).Some? && e.row.author.nickname != "" {
        SameAuthor(e, le);
        aliases := aliases + [AliasOf(post, e.row.author.nickname, e.row.capturedAt, e.row.capturedAt)];
      }
      assert StepsOf(e)[..1] == [AtPost(e)];
      for j := 0 to |e.row.comments|
        invariant Collected(before + StepsOf(e)[..j + 1], le, occurrences, aliases, interactions)
      {
        var x := CommentEntry(e, e.row.comments[j]);
        assert before + StepsOf(e)[..j + 2] == before + StepsOf(e)[..j + 1] + [AtComment(x)];
        OneMoreStep(before + StepsOf(e)[..j + 1], AtComment(x), le, occurrences, aliases, interactions);
        var comment := CommentOccurrence(x, le);
        SameCommentAuthor(x, le);
        occurrences := occurrences + [comment];
        if CommentAuthorOf(e.row, x.comment).Some? && x.comment.author.nickname != "" {
          aliases := aliases + [AliasOf(comment, x.comment.author.nickname, x.comment.time, e.row.capturedAt)];
        }
        if CommentAuthorOf(e.row, x.comment).Some? && AuthorOf(e.row).Some? {
          interactions := interactions + [InteractionOf(x, le)];
        }
      }
      assert StepsOf(e)[..|e.row.comments| + 1] == StepsOf(e);
      StepsGrow(entries, i);
    }
    assert entries[..|entries|] == entries;
  }

  lemma NothingCollected(entries: seq<Entry>, le: Order)
    ensures Collected(Steps(entries[..0]), le, [], [], [])
  {
  }

  lemma SameAuthor(e: Entry, le: Order)
    ensures PostOccurrence(e, le).account == AuthorOf(e.row)
  {
    hide SnapshotRefOf;
  }

  lemma SameCommentAuthor(x: CommentEntry, le: Order)
    ensures CommentOccurrence(x, le).account == CommentAuthorOf(x.entry.row, x.comment)
  {
    hide SnapshotRefOf;
  }

  /** The dictionary of accounts: one entry for each, in some order. */
  method Enumerate<T(!new, ==)>(elements: set<T>) returns (s: seq<T>)
    ensures Enumerates(s, elements)
  {
    s := [];
    var todo := elements;
    while todo != {}
      invariant todo <= elements && Enumerates(s, elements - todo)
      decreases |todo|
    {
      var x :| x in todo;
      assert x !in Elements(s);
      assert Elements(s + [x]) == Elements(s) + {x} && elements - (todo - {x}) == elements - todo + {x};
      s := s + [x];
      todo := todo - {x};
    }
    assert elements - todo == elements;
  }

  ghost predicate Requested(requested: set<string>, jobs: map<string, Job>) {
    requested != {} && "" !in requested && requested <= jobs.Keys
  }

  /** The builder refuses exactly an empty or unknown request and rows that it does not accept. */
  method Build(requested: set<string>, jobs: map<string, Job>, le: Order) returns (corpus: Result<Corpus>)
    requires TotalOrder(le)
    ensures corpus.Ok? ==>
      && Requested(requested, jobs) && Lists(corpus.value.tasks, requested, le)
      && (forall t <- corpus.value.tasks :: t in jobs)
      && Accepts(Entries(corpus.value.tasks, jobs)) && IsBuilt(corpus.value, corpus.value.tasks, jobs, le)
    ensures corpus.Err? && Requested(requested, jobs) ==>
      exists tasks: seq<string> :: Lists(tasks, requested, le) && (forall t <- tasks :: t in jobs) && !Accepts(Entries(tasks, jobs))
  {
    hide Accepts, Accounts, Entries, Steps, Gather, SnapshotRefOf, TotalOrder, Sorted, NoDuplicates, HashesOf, SnapshotFor;
    if requested == {} || "" in requested {
      return Err("empty_task_id");
    }
    if !(requested <= jobs.Keys) {
      return Err("missing_task");
    }
    var tasks := SortSet(requested, le);
    assert forall t <- tasks :: t in Elements(tasks);
    var entries := Entries(tasks, jobs);
    var ok := Accept(entries);
    if !ok {
      assert Lists(tasks, requested, le);
      return Err("unsupported_source");
    }
    var accounts := Enumerate(Accounts(entries));
    var occurrences, aliases, interactions := Collect(entries, le);
    var identities := seq(|tasks|, i requires 0 <= i < |tasks| => assert tasks[i] in tasks; SnapshotRefOf(tasks[i], jobs[tasks[i]], le));
    var hashes := Hashes(identities, accounts, aliases, occurrences, interactions);
    var revision := Revision(tasks, hashes);
    var snapshots := seq(|tasks|, i requires 0 <= i < |tasks| => SnapshotFor(identities[i], revision));
    var c := Corpus(tasks, revision, hashes, snapshots, accounts, aliases, occurrences, interactions);
    assert HashesOf(c) == hashes by {
      SameIdentities(c, identities, revision);
    }
    corpus := Ok(c);
  }

  lemma SameIdentities(c: Corpus, identities: seq<SnapshotRef>, revision: Revision)
    requires c.snapshots == seq(|identities|, i requires 0 <= i < |identities| => SnapshotFor(identities[i], revision))
    ensures HashesOf(c) == Hashes(identities, c.accounts, c.aliases, c.occurrences, c.interactions)
  {
    assert IdentitiesOf(c.snapshots) == identities;
  }

  lemma {:induction false} EnumerationExists<T(!new)>(elements: set<T>) returns (s: seq<T>)
    ensures Enumerates(s, elements)
    decreases |elements|
  {
    s := [];
    if elements != {} {
      var x :| x in elements;
      var rest := EnumerationExists(elements - {x});
      assert x !in Elements(rest);
      s := rest + [x];
      assert Elements(s) == Elements(rest) + {x};
    }
  }

  /** Every source has a corpus that is built of it. */
  lemma BuildExists(tasks: seq<string>, jobs: map<string, Job>, le: Order) returns (c: Corpus)
    requires forall t <- tasks :: t in jobs
    ensures IsBuilt(c, tasks, jobs, le)
  {
    hide Accounts, Entries, Steps, Gather, SnapshotRefOf, HashesOf, SnapshotFor, NoDuplicates;
    var entries := Entries(tasks, jobs);
    var accounts := EnumerationExists(Accounts(entries));
    var identities := seq(|tasks|, i requires 0 <= i < |tasks| => assert tasks[i] in tasks; SnapshotRefOf(tasks[i], jobs[tasks[i]], le));
    var aliases, occurrences := Gather(Steps(entries), FoundAlias(le)), Gather(Steps(entries), FoundOccurrence(le));
    var interactions := Gather(Steps(entries), FoundInteraction(le));
    var revision := Revision(tasks, Hashes(identities, accounts, aliases, occurrences, interactions));
    var snapshots := seq(|tasks|, i requires 0 <= i < |tasks| => SnapshotFor(identities[i], revision));
    c := Corpus(tasks, revision, revision.hashes, snapshots, accounts, aliases, occurrences, interactions);
    SameIdentities(c, identities, revision);
  }

  // ---- what a build keeps ----

  lemma {:induction false} MissingIsCounted(rows: seq<Row>)
    ensures
      var c := CoverageOf(rows);
      && c.posts == |rows| == c.resolvedPosts + c.unresolvedPosts
      && c.comments == c.resolvedComments + c.unresolvedComments
  {
    if rows != [] {
      MissingIsCounted(rows[1..]);
    }
  }

  // ---- validating ----

  method TasksAreOk(c: Corpus, le: Order) returns (ok: bool)
    requires TotalOrder(le)
    ensures ok <==> SnapshotsOk(c, le)
  {
    hide TotalOrder, Sorted, NoDuplicates, UniqueBy;
    var sorted := SortSet(Elements(c.tasks), le);
    if sorted != c.tasks {
      if Lists(c.tasks, Elements(c.tasks), le) {
        ListingIsUnique(sorted, c.tasks, Elements(c.tasks), le);
      }
      return false;
    }
    var unique := AllDistinct(c.snapshots, SnapshotKey);
    if !unique || (set s <- c.snapshots :: s.taskId) != Elements(c.tasks) {
      return false;
    }
    for i := 0 to |c.snapshots|
      invariant forall s <- c.snapshots[..i] :: s.ref == SnapshotIdentity(s) && s.revision == c.revision
    {
      var s := c.snapshots[i];
      assert s in c.snapshots && c.snapshots[..i + 1] == c.snapshots[..i] + [s];
      if s.ref != SnapshotIdentity(s) || s.revision != c.revision {
        return false;
      }
    }
    assert c.snapshots[..|c.snapshots|] == c.snapshots;
    return true;
  }

  method AllOccurrencesOk(c: Corpus, le: Order) returns (ok: bool)
    ensures ok <==> forall o <- c.occurrences :: OccurrenceOk(c, o, le)
  {
    hide OccurrenceOk;
    for i := 0 to |c.occurrences|
      invariant forall o <- c.occurrences[..i] :: OccurrenceOk(c, o, le)
    {
      var o := c.occurrences[i];
      assert o in c.occurrences && c.occurrences[..i + 1] == c.occurrences[..i] + [o];
      if !OccurrenceOk(c, o, le) {
        return false;
      }
    }
    assert c.occurrences[..|c.occurrences|] == c.occurrences;
    return true;
  }

  method OccurrencesAreUnique(c: Corpus) returns (ok: bool)
    ensures ok <==> OccurrencesUnique(c)
  {
    hide UniqueBy;
    var refs := AllDistinct(c.occurrences, OccurrenceKey);
    var posts := AllDistinct(PostsIn(c.occurrences), GlobalPost);
    var comments := AllDistinct(CommentsIn(c.occurrences), TaskComment);
    var everywhere := AllDistinct(CommentsIn(c.occurrences), GlobalComment);
    ok := refs && posts && comments && everywhere;
  }

  method AccountsAndAliasesAreOk(c: Corpus) returns (ok: bool)
    ensures ok <==> AccountsOk(c) && AliasesOk(c)
  {
    hide UniqueBy, AliasOk;
    var accounts := AllDistinct(c.accounts, AccountKey);
    var aliases := AllDistinct(c.aliases, AliasKey);
    ok := accounts && aliases
       && (forall a | a in c.accounts :: a.ref == AccountRef(a.platform, a.namespace, a.key))
       && (forall a | a in c.aliases :: AliasOk(c, a));
  }

  method AllInteractionsOk(c: Corpus) returns (ok: bool)
    ensures ok <==> InteractionsOk(c)
  {
    hide UniqueBy, InteractionOk;
    var interactions := AllDistinct(c.interactions, InteractionKey);
    ok := interactions && forall x | x in c.interactions :: InteractionOk(c, x);
  }

  /** `_validate`. */
  method Validate(c: Corpus, le: Order) returns (ok: bool)
    requires TotalOrder(le)
    ensures ok <==> IsValid(c, le)
  {
    hide TotalOrder, SnapshotsOk, AccountsOk, OccurrencesUnique, OccurrenceOk, AliasesOk, InteractionsOk;
    var snapshots := TasksAreOk(c, le);
    var unique := OccurrencesAreUnique(c);
    var occurrences := AllOccurrencesOk(c, le);
    var accounts := AccountsAndAliasesAreOk(c);
    var interactions := AllInteractionsOk(c);
    ok := snapshots && unique && occurrences && accounts && interactions
       && c.hashes == HashesOf(c) && c.revision == Revision(c.tasks, HashesOf(c));
  }
}
