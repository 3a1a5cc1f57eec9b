/** What the entries of a built corpus say, field by field, of the source rows they come from. */
module CorpusContents {
  import opened Wrappers
  import opened Sorting
  import opened Sublists
  import opened AccountCorpus
  import V = CorpusValidity

  /** An author has a stable identity exactly on the one platform, under its two names, and with a source key. */
  ghost predicate Identifies(account: Option<AccountRef>, platform: string, author: SourceAccount) {
    if (platform == "dy" || platform == "douyin") && author.secUid != ""
    then account == Some(AccountRef("douyin", "douyin.sec_uid", author.secUid)) else account == None
  }

  /** The title a post is shown under: that of the audit, else the one of the source, else none. */
  ghost predicate TitleTells(view: PostView, r: Row) {
    var source := if r.rawTitle == "" then r.storedTitle else r.rawTitle;
    && view.sourceTitle == source
    && (r.auditTitle != "" ==> view.displayTitle == r.auditTitle && view.titleSource == "audit_generated")
    && (r.auditTitle == "" && source != "" ==> view.displayTitle == source && view.titleSource == "source")
    && (r.auditTitle == "" && source == "" ==> view.displayTitle == "" && view.titleSource == "unavailable")
  }

  ghost predicate PostViewTells(view: PostView, r: Row) {
    && view.platform == (if r.platform == "dy" then "douyin" else r.platform)
    && view.contentKey == r.contentKey && view.publishedAt == r.publishedAt && TitleTells(view, r)
  }

  ghost predicate PostTells(o: Occurrence, task: string, r: Row) {
    && o.kind.PostAuthor? && o.taskId == task && o.ref.kind.PostAuthor? && o.ref.taskId == task && o.snapshot.taskId == task
    && Identifies(o.account, r.platform, r.author) && (o.resolved <==> o.account.Some?)
    && o.occurredAt == r.publishedAt && o.auditStatus == "completed" && o.decision == Some(r.decision) && o.riskLevel == r.riskLevel
    && PostViewTells(o.post, r) && o.comment == None && o.parentPost == None && o.parentAuthor == o.account
  }

  ghost predicate CommentTells(o: Occurrence, post: OccurrenceRef, task: string, r: Row, c: SourceComment) {
    && o.kind.CommentAuthor? && o.taskId == task && o.ref.kind.CommentAuthor? && o.ref.taskId == task && o.snapshot.taskId == task
    && Identifies(o.account, r.platform, c.author) && (o.resolved <==> o.account.Some?)
    && o.occurredAt == c.time && o.auditStatus == c.auditStatus && o.decision == None && o.riskLevel == c.riskLevel
    && PostViewTells(o.post, r)
    && o.comment == Some(CommentView(c.commentId, c.time, c.text, c.auditStatus, c.riskLevel, c.riskType))
    && o.parentPost == Some(post) && Identifies(o.parentAuthor, r.platform, r.author)
  }

  /** Both kinds of occurrences tell of their rows. */
  lemma OccurrencesTell(e: Entry, c: SourceComment, le: Order)
    ensures PostTells(PostOccurrence(e, le), e.task, e.row)
    ensures CommentTells(CommentOccurrence(CommentEntry(e, c), le), PostOccurrence(e, le).ref, e.task, e.row, c)
  {
    hide CapturedAt, CoverageOf, SourceOf;
  }

  /** An alias is recorded exactly for an identified author with a nickname: when seen and when captured. */
  lemma AliasesTell(e: Entry, c: SourceComment, le: Order)
    ensures
      var o, alias := PostOccurrence(e, le), AliasAt(AtPost(e), le);
      && (alias.Some? <==> o.account.Some? && e.row.author.nickname != "")
      && (alias.Some? ==>
            && Some(alias.value.account) == o.account && alias.value.nickname == e.row.author.nickname
            && alias.value.observedAt == e.row.capturedAt && alias.value.capturedAt == e.row.capturedAt
            && alias.value.source == o.ref && alias.value.taskId == e.task)
    ensures
      var o, alias := CommentOccurrence(CommentEntry(e, c), le), AliasAt(AtComment(CommentEntry(e, c)), le);
      && (alias.Some? <==> o.account.Some? && c.author.nickname != "")
      && (alias.Some? ==>
            && Some(alias.value.account) == o.account && alias.value.nickname == c.author.nickname
            && alias.value.observedAt == c.time && alias.value.capturedAt == e.row.capturedAt
            && alias.value.source == o.ref && alias.value.taskId == e.task)
  {
    hide CapturedAt, CoverageOf, SourceOf;
  }

  /** An interaction leads from an identified commenter to the identified author of the post. */
  lemma InteractionsTell(e: Entry, c: SourceComment, le: Order)
    ensures InteractionAt(AtPost(e), le) == None
    ensures
      var post, comment := PostOccurrence(e, le), CommentOccurrence(CommentEntry(e, c), le);
      var interaction := InteractionAt(AtComment(CommentEntry(e, c)), le);
      && (interaction.Some? <==> post.account.Some? && comment.account.Some?)
      && (interaction.Some? ==>
            && Some(interaction.value.actor) == comment.account && Some(interaction.value.postAuthor) == post.account
            && interaction.value.comment == comment.ref && interaction.value.parentPost == post.ref && interaction.value.taskId == e.task)
  {
    hide CapturedAt, CoverageOf, SourceOf;
  }

  function Seen(r: Row): string {
    if r.updatedAt == "" then r.capturedAt else r.updatedAt
  }

  /** A snapshot was captured when its latest row was updated, or captured if it never was updated. */
  lemma {:induction false} CapturedAtIsLatest(rows: seq<Row>, le: Order)
    requires TotalOrder(le) && rows != []
    ensures exists r <- rows :: CapturedAt(rows, le) == Seen(r)
    ensures forall r <- rows :: le(Seen(r), CapturedAt(rows, le))
  {
    assert rows == [rows[0]] + rows[1..] && rows[0] in rows;
    if |rows| == 1 {
      assert CapturedAt(rows, le) == Seen(rows[0]);
    } else {
      CapturedAtIsLatest(rows[1..], le);
      var latest :| latest in rows[1..] && CapturedAt(rows[1..], le) == Seen(latest);
      assert latest in rows && (CapturedAt(rows, le) == Seen(latest) || CapturedAt(rows, le) == Seen(rows[0]));
    }
  }

  function HasAuthor(r: Row): bool {
    AuthorOf(r).Some?
  }

  function HasNoAuthor(r: Row): SourceComment -> bool {
    c => CommentAuthorOf(r, c).None?
  }

  /** The comments of the rows, and those of them without an identity. */
  function CommentCount(rows: seq<Row>): nat {
    if rows == [] then 0 else |rows[0].comments| + CommentCount(rows[1..])
  }

  function UnresolvedCount(rows: seq<Row>): nat {
    if rows == [] then 0 else |Filter(rows[0].comments, HasNoAuthor(rows[0]))| + UnresolvedCount(rows[1..])
  }

  lemma {:induction false} MissingAreFiltered(r: Row, comments: seq<SourceComment>)
    ensures MissingComments(r, comments) == |Filter(comments, HasNoAuthor(r))|
  {
    if comments != [] {
      MissingAreFiltered(r, comments[1..]);
    }
  }

  const IsResolved: Row -> bool := (r: Row) => HasAuthor(r)

  /** The coverage of a snapshot counts its posts and comments with and without an identified author. */
  lemma {:induction false} CoverageTells(rows: seq<Row>)
    ensures
      var c := CoverageOf(rows);
      && c.posts == |rows| && c.resolvedPosts == |Filter(rows, IsResolved)| && c.unresolvedPosts == c.posts - c.resolvedPosts
      && c.comments == CommentCount(rows) && c.unresolvedComments == UnresolvedCount(rows)
      && c.resolvedComments == c.comments - c.unresolvedComments
  {
    if rows != [] {
      CoverageTells(rows[1..]);
      MissingAreFiltered(rows[0], rows[0].comments);
    }
  }

  /** What a snapshot says of its task: when it was captured, its coverage, its quality. */
  lemma SnapshotTells(task: string, job: Job, le: Order)
    ensures
      var s := SnapshotRefOf(task, job, le);
      && s.taskId == task && s.quality == job.quality && s.coverage == CoverageOf(job.rows) && |s.source| == |job.rows|
      && (job.rows == [] ==> s.capturedAt == job.updatedAt)
      && (job.rows != [] ==> s.capturedAt == CapturedAt(job.rows, le))
  {
    hide CoverageOf, CapturedAt, SourceOf;
  }

  /** In a total order of times a comment predates its post exactly if both times are known and the comment's is smaller. */
  lemma PredatesIff(time: string, parentTime: string, le: Order)
    requires TotalOrder(le)
    ensures Predates(time, parentTime, le) <==> time != "" && parentTime != "" && !le(parentTime, time)
  {
  }

  // ---- what every valid corpus guarantees ----

  /** The comment has its own post in the corpus, shown alike, and does not come before it. */
  ghost predicate UnderPost(c: Corpus, o: Occurrence, le: Order) {
    exists p <- c.occurrences ::
      && p.kind.PostAuthor? && p.taskId == o.taskId && p.post == o.post
      && o.parentPost == Some(p.ref) && o.parentAuthor == p.account
      && (o.occurredAt != "" && p.occurredAt != "" ==> le(p.occurredAt, o.occurredAt))
  }

  ghost predicate OccurrenceGuaranteed(c: Corpus, o: Occurrence, le: Order) {
    && o.taskId in c.tasks && (exists s <- c.snapshots :: s.ref == o.snapshot && s.taskId == o.taskId)
    && (o.account.Some? ==> exists a <- c.accounts :: a.ref == o.account.value)
    && (o.resolved <==> o.account.Some?)
    && o.ref.kind == o.kind && o.ref.taskId == o.taskId && o.ref.contentKey == o.post.contentKey && o.ref.snapshot == o.snapshot
    && o.riskLevel in ["none", "low", "medium", "high"]
    && (o.kind.PostAuthor? ==>
          && o.occurredAt == o.post.publishedAt && o.auditStatus == "completed"
          && o.decision in [Some("pass"), Some("review"), Some("reject")])
    && (o.kind.CommentAuthor? ==>
          && o.comment.Some? && o.comment.value.commentId != "" && o.ref.commentId == Some(o.comment.value.commentId)
          && o.comment.value.auditStatus == o.auditStatus && o.comment.value.riskLevel == o.riskLevel && o.auditStatus != ""
          && UnderPost(c, o, le))
  }

  ghost predicate AliasGuaranteed(c: Corpus, a: Alias) {
    exists o <- c.occurrences :: o.ref == a.source && o.account == Some(a.account) && o.taskId == a.taskId
  }

  ghost predicate InteractionGuaranteed(c: Corpus, x: Interaction) {
    exists comment, post | comment in c.occurrences && post in c.occurrences ::
      && comment.kind.CommentAuthor? && comment.ref == x.comment && comment.account == Some(x.actor)
      && post.kind.PostAuthor? && post.ref == x.parentPost && post.account == Some(x.postAuthor)
      && comment.parentPost == Some(post.ref) && comment.taskId == x.taskId && post.taskId == x.taskId
      && comment.snapshot == x.snapshot && post.snapshot == x.snapshot
  }

  /** What the validation promises of every occurrence, alias and interaction of a corpus that passes it. */
  lemma ValidGuarantees(c: Corpus, le: Order)
    requires IsValid(c, le) && TotalOrder(le)
    ensures forall o <- c.occurrences :: OccurrenceGuaranteed(c, o, le)
    ensures forall a <- c.aliases :: AliasGuaranteed(c, a)
    ensures forall x <- c.interactions :: InteractionGuaranteed(c, x)
  {
    hide SnapshotsOk, AccountsOk, OccurrencesUnique, HashesOk, OccurrenceOk, OccurrenceGuaranteed, AliasGuaranteed, InteractionGuaranteed;
    forall o | o in c.occurrences ensures OccurrenceGuaranteed(c, o, le) {
      OccurrenceIsGuaranteed(c, o, le);
    }
    forall a | a in c.aliases ensures AliasGuaranteed(c, a) {
      AliasIsGuaranteed(c, a);
    }
    forall x | x in c.interactions ensures InteractionGuaranteed(c, x) {
      InteractionIsGuaranteed(c, x);
    }
  }

  lemma AliasIsGuaranteed(c: Corpus, a: Alias)
    requires AliasOk(c, a)
    ensures AliasGuaranteed(c, a)
  {
  }

  lemma InteractionIsGuaranteed(c: Corpus, x: Interaction)
    requires InteractionOk(c, x)
    ensures InteractionGuaranteed(c, x)
  {
  }

  lemma OccurrenceIsGuaranteed(c: Corpus, o: Occurrence, le: Order)
    requires OccurrenceOk(c, o, le) && TotalOrder(le)
    ensures OccurrenceGuaranteed(c, o, le)
  {
    hide TitleOk, PostIndex, TotalOrder;
    if o.kind.CommentAuthor? {
      var index, key := PostIndex(c.occurrences), (o.taskId, o.post.contentKey);
      assert ParentOk(o, index, le) && key in index;
      var p := index[key];
      IndexedPost(c.occurrences, key);
      PredatesIff(o.occurredAt, p.occurredAt, le);
      assert UnderPost(c, o, le);
    }
  }

  lemma IndexedPost(s: seq<Occurrence>, key: (string, string))
    requires key in PostIndex(s)
    ensures PostIndex(s)[key] in s && PostIndex(s)[key].kind.PostAuthor?
    ensures PostIndex(s)[key].taskId == key.0 && PostIndex(s)[key].post.contentKey == key.1
  {
    V.PostIndexSpec(s);
    var index := PostIndex(s);
    assert index[key] in s;
  }
}
