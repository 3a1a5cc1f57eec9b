/** The lists that the builder of a corpus fills: each entry is appended by one step, and none repeats. */
module CorpusLists {
  import opened Wrappers
  import opened Sorting
  import opened AccountCorpus

  // ---- the steps ----

  lemma StepsOfEntry(e: Entry)
    ensures |StepsOf(e)| == 1 + |CommentsOf(e)|
    ensures forall f :: AtPost(f) in StepsOf(e) <==> f == e
    ensures forall x :: AtComment(x) in StepsOf(e) <==> x in CommentsOf(e)
  {
    var steps, comments := StepsOf(e), CommentsOf(e);
    assert forall i | 0 <= i < |comments| :: steps[i + 1] == AtComment(comments[i]);
    assert steps[0] == AtPost(e);
    forall x | AtComment(x) in steps ensures x in comments {
      var k :| 0 <= k < |steps| && steps[k] == AtComment(x);
      assert comments[k - 1] == x;
    }
  }

  lemma {:induction false} StepsAre(entries: seq<Entry>)
    ensures |Steps(entries)| == |entries| + |Comments(entries)|
    ensures forall e :: AtPost(e) in Steps(entries) <==> e in entries
    ensures forall x :: AtComment(x) in Steps(entries) <==> x in Comments(entries)
    decreases |entries|
  {
    hide StepsOf, CommentsOf;
    if entries != [] {
      var init, last := entries[..|entries| - 1], entries[|entries| - 1];
      StepsAre(init);
      StepsOfEntry(last);
      assert entries == init + [last];
    }
  }

  lemma PostsAreDistinct(entries: seq<Entry>, post: Entry -> Step)
    requires UniqueBy(entries, PostInTask) && forall e :: post(e) == AtPost(e)
    ensures UniqueBy(entries, post)
  {
    forall i, j | 0 <= i < j < |entries| ensures post(entries[i]) != post(entries[j]) {
      assert PostInTask(entries[i]) != PostInTask(entries[j]);
    }
  }

  lemma CommentsAreDistinct(comments: seq<CommentEntry>, comment: CommentEntry -> Step)
    requires UniqueBy(comments, CommentInTask) && forall x :: comment(x) == AtComment(x)
    ensures UniqueBy(comments, comment)
  {
    forall i, j | 0 <= i < j < |comments| ensures comment(comments[i]) != comment(comments[j]) {
      assert CommentInTask(comments[i]) != CommentInTask(comments[j]);
    }
  }

  lemma StepsAreDistinct(entries: seq<Entry>)
    requires Accepts(entries)
    ensures NoDuplicates(Steps(entries))
  {
    hide RowOk, CommentOk, Steps, Comments, UniqueBy, NoDuplicates;
    StepsAre(entries);
    var post, comment := (e: Entry) => AtPost(e), (x: CommentEntry) => AtComment(x);
    var steps, comments := Steps(entries), Comments(entries);
    PostsAreDistinct(entries, post);
    CommentsAreDistinct(comments, comment);
    UniqueCount(entries, post);
    UniqueCount(comments, comment);
    StepsAreBoth(entries, steps, post, comment);
    var a, b := KeySet(entries, post), KeySet(comments, comment);
    ElementsAtMost(steps);
  }

  lemma StepsAreBoth(entries: seq<Entry>, steps: seq<Step>, post: Entry -> Step, comment: CommentEntry -> Step)
    requires (forall e :: post(e) == AtPost(e)) && (forall x :: comment(x) == AtComment(x))
    requires forall e :: AtPost(e) in steps <==> e in entries
    requires forall x :: AtComment(x) in steps <==> x in Comments(entries)
    ensures |Elements(steps)| == |KeySet(entries, post)| + |KeySet(Comments(entries), comment)|
  {
    hide Comments;
    var a, b := KeySet(entries, post), KeySet(Comments(entries), comment);
    forall s ensures s in Elements(steps) <==> s in a + b {
      match s
      case AtPost(e) => assert s == post(e);
      case AtComment(x) => assert s == comment(x);
    }
    assert Elements(steps) == a + b && a !! b;
  }

  // ---- every step has an occurrence of its own ----

  lemma PostFields(e: Entry, le: Order)
    ensures
      var o := PostOccurrence(e, le);
      && o.kind == PostAuthor && o.taskId == e.task && o.post == ViewOf(e.row) && o.account == AuthorOf(e.row)
      && o.post.contentKey == e.row.contentKey && o.post.platform == PlatformOf(e.row.platform)
      && o.occurredAt == e.row.publishedAt && o.snapshot == SnapshotRefOf(e.task, e.job, le)
      && o.ref.kind == PostAuthor && o.ref.taskId == e.task && o.ref.contentKey == e.row.contentKey
  {
    hide SnapshotRefOf;
  }

  lemma CommentFields(x: CommentEntry, le: Order)
    ensures
      var o, e := CommentOccurrence(x, le), x.entry;
      && o.kind == CommentAuthor && o.taskId == e.task && o.post == ViewOf(e.row)
      && o.post.contentKey == e.row.contentKey && o.post.platform == PlatformOf(e.row.platform)
      && o.account == CommentAuthorOf(e.row, x.comment) && o.comment.Some? && CommentIdOf(o) == x.comment.commentId
      && o.occurredAt == x.comment.time && o.snapshot == SnapshotRefOf(e.task, e.job, le)
      && o.parentPost == Some(PostOccurrence(e, le).ref) && o.parentAuthor == AuthorOf(e.row)
      && o.ref.kind == CommentAuthor && o.ref.taskId == e.task && o.ref.commentId == Some(x.comment.commentId)
  {
    hide SnapshotRefOf, PostOccurrence;
  }

  lemma SamePost(entries: seq<Entry>, le: Order, a: Entry, b: Entry)
    requires Accepts(entries) && a in entries && b in entries
    requires (a.task == b.task || PlatformOf(a.row.platform) == PlatformOf(b.row.platform)) && a.row.contentKey == b.row.contentKey
    ensures a == b
  {
    hide Comments;
    assert forall e: Entry :: PostInTask(e) == (e.task, e.row.contentKey);
    assert forall e: Entry :: PostAnywhere(e) == (PlatformOf(e.row.platform), e.row.contentKey);
    if a.task == b.task {
      KeyedAlike(entries, PostInTask, a, b);
    } else {
      KeyedAlike(entries, PostAnywhere, a, b);
    }
  }

  lemma SameComment(entries: seq<Entry>, le: Order, a: CommentEntry, b: CommentEntry)
    requires Accepts(entries) && a in Comments(entries) && b in Comments(entries) && a.comment.commentId == b.comment.commentId
    requires a.entry.task == b.entry.task || PlatformOf(a.entry.row.platform) == PlatformOf(b.entry.row.platform)
    ensures a == b
  {
    hide Comments;
    assert forall x: CommentEntry :: CommentInTask(x) == (x.entry.task, x.comment.commentId);
    assert forall x: CommentEntry :: CommentAnywhere(x) == (PlatformOf(x.entry.row.platform), x.comment.commentId);
    if a.entry.task == b.entry.task {
      KeyedAlike(Comments(entries), CommentInTask, a, b);
    } else {
      KeyedAlike(Comments(entries), CommentAnywhere, a, b);
    }
  }

  function RefAt(le: Order): Step -> OccurrenceRef {
    (s: Step) => OccurrenceAt(s, le).ref
  }

  lemma StepsHaveOwnRefs(entries: seq<Entry>, le: Order)
    requires Accepts(entries)
    ensures UniqueBy(Steps(entries), RefAt(le))
  {
    hide Accepts, Steps, Comments, PostOccurrence, CommentOccurrence;
    StepsAre(entries);
    StepsAreDistinct(entries);
    forall a, b | a in Steps(entries) && b in Steps(entries) && RefAt(le)(a) == RefAt(le)(b) ensures a == b {
      SameStep(entries, le, a, b);
    }
    UniqueFromDistinct(Steps(entries), RefAt(le));
  }

  lemma SameStep(entries: seq<Entry>, le: Order, a: Step, b: Step)
    requires Accepts(entries) && a in Steps(entries) && b in Steps(entries) && OccurrenceAt(a, le).ref == OccurrenceAt(b, le).ref
    ensures a == b
  {
    hide Accepts, Steps, Comments, PostOccurrence, CommentOccurrence;
    StepsAre(entries);
    match a {
      case AtPost(e) => PostFields(e, le);
      case AtComment(x) => CommentFields(x, le);
    }
    match b {
      case AtPost(e) => PostFields(e, le);
      case AtComment(x) => CommentFields(x, le);
    }
    if a.AtPost? {
      SamePost(entries, le, a.entry, b.entry);
    } else {
      SameComment(entries, le, a.x, b.x);
    }
  }

  // ---- what a list has ----

  /** The entry that a step appends is about the step's occurrence. */
  ghost predicate About<T(!new)>(steps: seq<Step>, found: Step -> Option<T>, refOf: T -> OccurrenceRef, le: Order) {
    forall s <- steps :: found(s).Some? ==> refOf(found(s).value) == RefAt(le)(s)
  }

  lemma {:induction false} GatheredAre<T(!new)>(steps: seq<Step>, found: Step -> Option<T>)
    ensures forall t :: t in Gather(steps, found) <==> exists s <- steps :: found(s) == Some(t)
    decreases |steps|
  {
    if steps != [] {
      var init, last := steps[..|steps| - 1], steps[|steps| - 1];
      GatheredAre(init, found);
      assert steps == init + [last];
    }
  }

  function Finders<S(!new, ==), T>(steps: seq<S>, found: S -> Option<T>): set<S> {
    set s <- steps | found(s).Some?
  }

  lemma {:induction false} GatheredCount<T(!new)>(steps: seq<Step>, found: Step -> Option<T>)
    requires NoDuplicates(steps)
    ensures |Gather(steps, found)| == |Finders(steps, found)|
    decreases |steps|
  {
    if steps != [] {
      var init, last := steps[..|steps| - 1], steps[|steps| - 1];
      assert NoDuplicates(init) && last !in init;
      hide NoDuplicates;
      GatheredCount(init, found);
      assert steps == init + [last];
      OneMoreCounts(init, last, found);
    }
  }

  lemma OneMoreCounts<S(!new), T(!new)>(s: seq<S>, last: S, found: S -> Option<T>)
    requires last !in s
    ensures |Finders(s + [last], found)| == |Finders(s, found)| + |Listed(found(last))|
  {
    assert Finders(s + [last], found) == Finders(s, found) + if found(last).Some? then {last} else {};
  }

  lemma {:induction false} GatheredOnce<T(!new)>(steps: seq<Step>, found: Step -> Option<T>, refOf: T -> OccurrenceRef, le: Order)
    requires UniqueBy(steps, RefAt(le)) && About(steps, found, refOf, le)
    ensures UniqueBy(Gather(steps, found), refOf)
    ensures KeySet(Gather(steps, found), refOf) == set s <- steps | found(s).Some? :: RefAt(le)(s)
    decreases |steps|
  {
    hide RefAt;
    if steps != [] {
      var init, last := steps[..|steps| - 1], steps[|steps| - 1];
      assert steps == init + [last];
      assert UniqueBy(init, RefAt(le)) by {
        assert forall i | 0 <= i < |init| :: init[i] == steps[i];
      }
      GatheredOnce(init, found, refOf, le);
      forall s | s in init ensures RefAt(le)(s) != RefAt(le)(last) {
        var i :| 0 <= i < |init| && init[i] == s;
        assert RefAt(le)(steps[i]) != RefAt(le)(steps[|steps| - 1]);
      }
      var list := Gather(init, found);
      forall k | 0 <= k < |list| && found(last).Some? ensures refOf(list[k]) != refOf(found(last).value) {
        assert refOf(list[k]) in KeySet(list, refOf);
      }
      assert KeySet(Gather(steps, found), refOf) == KeySet(list, refOf) + if found(last).Some? then {RefAt(le)(last)} else {};
    }
  }

  /** Each step that finds something has exactly one entry in the list, whatever the list's order. */
  ghost predicate OnePerStep<T(!new)>(list: seq<T>, steps: seq<Step>, found: Step -> Option<T>, refOf: T -> OccurrenceRef, le: Order) {
    && UniqueBy(list, refOf) && NoDuplicates(list)
    && (forall t :: t in list <==> exists s <- steps :: found(s) == Some(t))
    && KeySet(list, refOf) == (set s <- steps | found(s).Some? :: RefAt(le)(s))
    && |list| == |Finders(steps, found)|
  }

  lemma ListIsOnePerStep<T(!new)>(list: seq<T>, entries: seq<Entry>, found: Step -> Option<T>, refOf: T -> OccurrenceRef, le: Order)
    requires Accepts(entries) && Reorders(list, Gather(Steps(entries), found)) && About(Steps(entries), found, refOf, le)
    ensures OnePerStep(list, Steps(entries), found, refOf, le)
  {
    hide Accepts, Steps, Gather, About, RefAt;
    StepsAreDistinct(entries);
    StepsHaveOwnRefs(entries, le);
    GatheredAre(Steps(entries), found);
    GatheredCount(Steps(entries), found);
    GatheredOnce(Steps(entries), found, refOf, le);
    ReorderedKeys(list, Gather(Steps(entries), found), refOf);
    assert forall t :: t in list <==> t in Elements(list);
    assert forall t :: t in Gather(Steps(entries), found) <==> t in Elements(list);
  }

  const AliasSource: Alias -> OccurrenceRef := (a: Alias) => a.source
  const InteractionComment: Interaction -> OccurrenceRef := (x: Interaction) => x.comment

  lemma OccurrencesAreAbout(steps: seq<Step>, le: Order)
    ensures About(steps, FoundOccurrence(le), OccurrenceKey, le)
  {
    hide OccurrenceAt;
  }

  lemma AliasesAreAbout(steps: seq<Step>, le: Order)
    ensures About(steps, FoundAlias(le), AliasSource, le)
  {
    hide PostOccurrence, CommentOccurrence;
    assert forall s: Step :: RefAt(le)(s) == OccurrenceAt(s, le).ref;
    assert forall a: Alias :: AliasSource(a) == a.source;
    forall s | s in steps && FoundAlias(le)(s).Some?
      ensures AliasSource(FoundAlias(le)(s).value) == RefAt(le)(s)
    {
      match s {
        case AtPost(e) => PostFields(e, le);
        case AtComment(x) => CommentFields(x, le);
      }
    }
  }

  lemma InteractionsAreAbout(steps: seq<Step>, le: Order)
    ensures About(steps, FoundInteraction(le), InteractionComment, le)
  {
    hide PostOccurrence, CommentOccurrence;
    assert forall s: Step :: RefAt(le)(s) == OccurrenceAt(s, le).ref;
    assert forall x: Interaction :: InteractionComment(x) == x.comment;
    forall s | s in steps && FoundInteraction(le)(s).Some?
      ensures InteractionComment(FoundInteraction(le)(s).value) == RefAt(le)(s)
    {
      CommentFields(s.x, le);
    }
  }

  lemma OccurrencesOnce(list: seq<Occurrence>, entries: seq<Entry>, le: Order)
    requires Accepts(entries) && Reorders(list, Gather(Steps(entries), FoundOccurrence(le)))
    ensures OnePerStep(list, Steps(entries), FoundOccurrence(le), OccurrenceKey, le)
    ensures |list| == |entries| + |Comments(entries)|
  {
    hide Accepts, Steps, Comments, Gather, About, RefAt, UniqueBy, NoDuplicates, KeySet, OccurrenceAt;
    var steps := Steps(entries);
    OccurrencesAreAbout(steps, le);
    ListIsOnePerStep(list, entries, FoundOccurrence(le), OccurrenceKey, le);
    StepsAre(entries);
    StepsAreDistinct(entries);
    DistinctCount(steps);
    assert Finders(steps, FoundOccurrence(le)) == Elements(steps);
  }

  lemma AliasesOnce(list: seq<Alias>, entries: seq<Entry>, le: Order)
    requires Accepts(entries) && Reorders(list, Gather(Steps(entries), FoundAlias(le)))
    ensures OnePerStep(list, Steps(entries), FoundAlias(le), AliasSource, le)
    ensures |list| == |set s <- Steps(entries) | IsNamed(s)|
  {
    hide Accepts, Steps, Gather, About, RefAt, UniqueBy, NoDuplicates, KeySet, IsNamed, PostOccurrence, CommentOccurrence;
    var steps := Steps(entries);
    AliasesAreAbout(steps, le);
    ListIsOnePerStep(list, entries, FoundAlias(le), AliasSource, le);
    assert Finders(steps, FoundAlias(le)) == (set s <- steps | IsNamed(s));
  }

  lemma InteractionsOnce(list: seq<Interaction>, entries: seq<Entry>, le: Order)
    requires Accepts(entries) && Reorders(list, Gather(Steps(entries), FoundInteraction(le)))
    ensures OnePerStep(list, Steps(entries), FoundInteraction(le), InteractionComment, le)
    ensures |list| == |set s <- Steps(entries) | IsInteraction(s)|
  {
    hide Accepts, Steps, Gather, About, RefAt, UniqueBy, NoDuplicates, KeySet, IsInteraction, PostOccurrence, CommentOccurrence;
    var steps := Steps(entries);
    InteractionsAreAbout(steps, le);
    ListIsOnePerStep(list, entries, FoundInteraction(le), InteractionComment, le);
    assert Finders(steps, FoundInteraction(le)) == (set s <- steps | IsInteraction(s));
  }

  /**
    Every accepted post and comment has its own occurrence, every resolved one with a nickname its own
    alias, and every comment between two resolved authors its own interaction: nothing is merged or repeated.
  */
  lemma NothingIsMerged(c: Corpus, tasks: seq<string>, jobs: map<string, Job>, le: Order)
    requires forall t <- tasks :: t in jobs
    requires IsBuilt(c, tasks, jobs, le) && Accepts(Entries(tasks, jobs))
    ensures
      var entries := Entries(tasks, jobs);
      var steps := Steps(entries);
      && OnePerStep(c.occurrences, steps, FoundOccurrence(le), OccurrenceKey, le)
      && OnePerStep(c.aliases, steps, FoundAlias(le), AliasSource, le)
      && OnePerStep(c.interactions, steps, FoundInteraction(le), InteractionComment, le)
      && |c.occurrences| == |entries| + |Comments(entries)|
      && |c.aliases| == |set s <- steps | IsNamed(s)|
      && |c.interactions| == |set s <- steps | IsInteraction(s)|
  {
    hide Accepts, Entries, Steps, Comments, Gather, RefAt, UniqueBy, NoDuplicates, KeySet, HashesOf, SnapshotFor,
      SnapshotRefOf, OccurrenceAt, Enumerates, IsNamed, IsInteraction, OnePerStep, Reorders, FoundOccurrence, FoundAlias, FoundInteraction;
    var entries := Entries(tasks, jobs);
    OccurrencesOnce(c.occurrences, entries, le);
    AliasesOnce(c.aliases, entries, le);
    InteractionsOnce(c.interactions, entries, le);
  }

  // ---- the lists as sets ----

  lemma OccurrencesListed(list: seq<Occurrence>, entries: seq<Entry>, le: Order)
    requires OnePerStep(list, Steps(entries), FoundOccurrence(le), OccurrenceKey, le)
    ensures Enumerates(list, Occurrences(entries, le))
  {
    hide PostOccurrence, CommentOccurrence, Steps, Comments, UniqueBy, NoDuplicates, KeySet, RefAt;
    StepsAre(entries);
    var steps := Steps(entries);
    forall o ensures o in list <==> o in Occurrences(entries, le) {
      if o in list {
        var s :| s in steps && FoundOccurrence(le)(s) == Some(o);
      }
      if o in Occurrences(entries, le) {
        if e :| e in entries && o == PostOccurrence(e, le) {
          assert FoundOccurrence(le)(AtPost(e)) == Some(o);
        } else {
          var x :| x in Comments(entries) && o == CommentOccurrence(x, le);
          assert FoundOccurrence(le)(AtComment(x)) == Some(o);
        }
      }
    }
  }

  lemma AliasesListed(list: seq<Alias>, entries: seq<Entry>, le: Order)
    requires OnePerStep(list, Steps(entries), FoundAlias(le), AliasSource, le)
    ensures Enumerates(list, Aliases(entries, le))
  {
    hide PostOccurrence, CommentOccurrence, Steps, UniqueBy, NoDuplicates, KeySet, RefAt, IsNamed;
    var steps := Steps(entries);
    forall a ensures a in list <==> a in Aliases(entries, le) {
      assert forall s :: FoundAlias(le)(s) == AliasAt(s, le) && (AliasAt(s, le).Some? <==> IsNamed(s));
    }
  }

  lemma InteractionsListed(list: seq<Interaction>, entries: seq<Entry>, le: Order)
    requires OnePerStep(list, Steps(entries), FoundInteraction(le), InteractionComment, le)
    ensures Enumerates(list, Interactions(entries, le))
  {
    hide PostOccurrence, CommentOccurrence, Steps, Comments, UniqueBy, NoDuplicates, KeySet, RefAt, Interacts;
    StepsAre(entries);
    var steps := Steps(entries);
    forall a ensures a in list <==> a in Interactions(entries, le) {
      if a in list {
        var s :| s in steps && FoundInteraction(le)(s) == Some(a);
        assert IsInteraction(s) && s.x in Comments(entries);
      }
      if a in Interactions(entries, le) {
        var x :| x in Comments(entries) && Interacts(x) && a == InteractionOf(x, le);
        assert FoundInteraction(le)(AtComment(x)) == Some(a);
      }
    }
  }
}
