/**
  The frozen corpus of account activity (`account_corpus.py`): what it is built from, what it holds,
  and what its validation demands. A reference is a digest of an identity, read as the identity.
*/
module AccountCorpus {
  import opened Wrappers
  import opened Sorting

  type Order = (string, string) -> bool

  const DOUYIN := "douyin"
  const NAMESPACE := "douyin.sec_uid"
  const LEVELS: set<string> := {"none", "low", "medium", "high"}
  const DECISIONS: set<string> := {"pass", "review", "reject"}

  // ---- the source, after normalisation ----

  datatype SourceAccount = SourceAccount(secUid: string, nickname: string)

  datatype SourceComment = SourceComment(commentId: string, awemeId: string, parentCommentId: string, author: SourceAccount,
                                         text: string, time: string, auditStatus: string, riskLevel: string, riskType: string)

  /** An audited post; an unknown publication time is the empty string. */
  datatype Row = Row(platform: string, contentKey: string, storedTitle: string, rawTitle: string, auditTitle: string,
                     publishedAt: string, decision: string, riskLevel: string, author: SourceAccount,
                     capturedAt: string, analyzedAt: string, updatedAt: string, comments: seq<SourceComment>)

  datatype Job = Job(displayName: string, updatedAt: string, quality: string, rows: seq<Row>)

  datatype Entry = Entry(task: string, job: Job, row: Row)

  datatype CommentEntry = CommentEntry(entry: Entry, comment: SourceComment)

  // ---- the corpus ----

  datatype Kind = PostAuthor | CommentAuthor

  datatype AccountRef = AccountRef(platform: string, namespace: string, key: string)

  datatype PostView = PostView(platform: string, contentKey: string, sourceTitle: string, displayTitle: string,
                               titleSource: string, publishedAt: string)

  datatype CommentView = CommentView(commentId: string, time: string, text: string, auditStatus: string,
                                     riskLevel: string, riskType: string)

  datatype SourcePost = SourcePost(view: PostView, capturedAt: string, analyzedAt: string, updatedAt: string,
                                   author: Option<AccountRef>, nickname: string, decision: string, riskLevel: string)

  datatype NormalComment = NormalComment(view: CommentView, author: Option<AccountRef>, nickname: string)

  datatype Coverage = Coverage(posts: nat, comments: nat, resolvedPosts: nat, unresolvedPosts: nat,
                               resolvedComments: nat, unresolvedComments: nat)

  datatype SnapshotRef = SnapshotRef(taskId: string, source: seq<(SourcePost, seq<NormalComment>)>, capturedAt: string,
                                     coverage: Coverage, quality: string)

  datatype RecordHash = OfPost(post: SourcePost) | OfComment(comment: NormalComment, parentContentKey: string)

  datatype OccurrenceRef = OccurrenceRef(kind: Kind, taskId: string, snapshot: SnapshotRef, contentKey: string,
                                         commentId: Option<string>, recordHash: RecordHash)

  datatype Occurrence = Occurrence(ref: OccurrenceRef, account: Option<AccountRef>, resolved: bool, kind: Kind, taskId: string,
                                   snapshot: SnapshotRef, occurredAt: string, auditStatus: string, decision: Option<string>,
                                   riskLevel: string, post: PostView, comment: Option<CommentView>,
                                   parentPost: Option<OccurrenceRef>, parentAuthor: Option<AccountRef>, recordHash: RecordHash)

  datatype Account = Account(ref: AccountRef, platform: string, namespace: string, key: string)

  datatype AliasRef = AliasRef(account: AccountRef, nickname: string, observedAt: string, capturedAt: string, source: OccurrenceRef)

  datatype Alias = Alias(ref: AliasRef, account: AccountRef, nickname: string, observedAt: string, capturedAt: string,
                         source: OccurrenceRef, taskId: string)

  datatype InteractionRef = InteractionRef(taskId: string, snapshot: SnapshotRef, actor: AccountRef, postAuthor: AccountRef,
                                           comment: OccurrenceRef, parentPost: OccurrenceRef)

  datatype Interaction = Interaction(ref: InteractionRef, taskId: string, snapshot: SnapshotRef, actor: AccountRef,
                                     postAuthor: AccountRef, comment: OccurrenceRef, parentPost: OccurrenceRef)

  datatype Hashes = Hashes(snapshots: seq<SnapshotRef>, accounts: seq<Account>, aliases: seq<Alias>,
                           occurrences: seq<Occurrence>, interactions: seq<Interaction>)

  datatype Revision = Revision(tasks: seq<string>, hashes: Hashes)

  datatype Snapshot = Snapshot(ref: SnapshotRef, taskId: string, source: seq<(SourcePost, seq<NormalComment>)>, capturedAt: string,
                               coverage: Coverage, quality: string, revision: Revision)

  datatype Corpus = Corpus(tasks: seq<string>, revision: Revision, hashes: Hashes, snapshots: seq<Snapshot>,
                           accounts: seq<Account>, aliases: seq<Alias>, occurrences: seq<Occurrence>,
                           interactions: seq<Interaction>)

  // ---- projecting a source row ----

  function PlatformOf(platform: string): string {
    if platform == "dy" || platform == DOUYIN then DOUYIN else platform
  }

  /** `_identity_from_source`. */
  function IdentityOf(platform: string, author: SourceAccount): Option<AccountRef> {
    if platform != DOUYIN || author.secUid == "" then None else Some(AccountRef(platform, NAMESPACE, author.secUid))
  }

  function SourceTitle(r: Row): string {
    if r.rawTitle != "" then r.rawTitle else r.storedTitle
  }

  function ViewOf(r: Row): PostView {
    var source := SourceTitle(r);
    var (title, titleSource) :=
      if r.auditTitle != "" then (r.auditTitle, "audit_generated")
      else if source != "" then (source, "source")
      else ("", "unavailable");
    PostView(PlatformOf(r.platform), r.contentKey, source, title, titleSource, r.publishedAt)
  }

  function AuthorOf(r: Row): Option<AccountRef> {
    IdentityOf(PlatformOf(r.platform), r.author)
  }

  function CommentAuthorOf(r: Row, c: SourceComment): Option<AccountRef> {
    IdentityOf(PlatformOf(r.platform), c.author)
  }

  function PostOf(r: Row): SourcePost {
    SourcePost(ViewOf(r), r.capturedAt, r.analyzedAt, r.updatedAt, AuthorOf(r), r.author.nickname, r.decision, r.riskLevel)
  }

  function NormalOf(r: Row, c: SourceComment): NormalComment {
    NormalComment(CommentView(c.commentId, c.time, c.text, c.auditStatus, c.riskLevel, c.riskType),
                  CommentAuthorOf(r, c), c.author.nickname)
  }

  function SourceOf(r: Row): (SourcePost, seq<NormalComment>) {
    (PostOf(r), seq(|r.comments|, i requires 0 <= i < |r.comments| => NormalOf(r, r.comments[i])))
  }

  function Later(a: string, b: string, le: Order): string {
    if le(a, b) then b else a
  }

  function CapturedAt(rows: seq<Row>, le: Order): string {
    if rows == [] then ""
    else
      var here := if rows[0].updatedAt != "" then rows[0].updatedAt else rows[0].capturedAt;
      if |rows| == 1 then here else Later(here, CapturedAt(rows[1..], le), le)
  }

  function MissingComments(r: Row, comments: seq<SourceComment>): (n: nat)
    ensures n <= |comments|
  {
    if comments == [] then 0 else (if CommentAuthorOf(r, comments[0]).None? then 1 else 0) + MissingComments(r, comments[1..])
  }

  function CoverageOf(rows: seq<Row>): Coverage {
    if rows == [] then Coverage(0, 0, 0, 0, 0, 0)
    else
      var r, rest := rows[0], CoverageOf(rows[1..]);
      var missing := MissingComments(r, r.comments);
      Coverage(rest.posts + 1, rest.comments + |r.comments|,
               rest.resolvedPosts + (if AuthorOf(r).Some? then 1 else 0), rest.unresolvedPosts + (if AuthorOf(r).None? then 1 else 0),
               rest.resolvedComments + |r.comments| - missing, rest.unresolvedComments + missing)
  }

  function SnapshotRefOf(task: string, job: Job, le: Order): SnapshotRef {
    SnapshotRef(task, seq(|job.rows|, i requires 0 <= i < |job.rows| => SourceOf(job.rows[i])),
                if job.rows == [] then job.updatedAt else CapturedAt(job.rows, le), CoverageOf(job.rows), job.quality)
  }

  function PostOccurrence(e: Entry, le: Order): Occurrence {
    var snapshot, hash := SnapshotRefOf(e.task, e.job, le), OfPost(PostOf(e.row));
    Occurrence(OccurrenceRef(PostAuthor, e.task, snapshot, e.row.contentKey, None, hash),
               AuthorOf(e.row), AuthorOf(e.row).Some?, PostAuthor, e.task, snapshot, e.row.publishedAt, "completed",
               Some(e.row.decision), e.row.riskLevel, ViewOf(e.row), None, None, AuthorOf(e.row), hash)
  }

  function CommentOccurrence(x: CommentEntry, le: Order): Occurrence {
    var e, c := x.entry, x.comment;
    var snapshot, hash := SnapshotRefOf(e.task, e.job, le), OfComment(NormalOf(e.row, c), e.row.contentKey);
    Occurrence(OccurrenceRef(CommentAuthor, e.task, snapshot, e.row.contentKey, Some(c.commentId), hash),
               CommentAuthorOf(e.row, c), CommentAuthorOf(e.row, c).Some?, CommentAuthor, e.task, snapshot, c.time,
               c.auditStatus, None, c.riskLevel, ViewOf(e.row), Some(NormalOf(e.row, c).view),
               Some(PostOccurrence(e, le).ref), AuthorOf(e.row), hash)
  }

  // ---- all that a corpus is built from ----

  function EntriesOf(task: string, job: Job): seq<Entry> {
    seq(|job.rows|, i requires 0 <= i < |job.rows| => Entry(task, job, job.rows[i]))
  }

  function Entries(tasks: seq<string>, jobs: map<string, Job>): seq<Entry>
    requires forall t <- tasks :: t in jobs
  {
    if tasks == [] then [] else assert tasks[0] in tasks; EntriesOf(tasks[0], jobs[tasks[0]]) + Entries(tasks[1..], jobs)
  }

  function CommentsOf(e: Entry): seq<CommentEntry> {
    seq(|e.row.comments|, i requires 0 <= i < |e.row.comments| => CommentEntry(e, e.row.comments[i]))
  }

  function Comments(entries: seq<Entry>): seq<CommentEntry> {
    if entries == [] then [] else Comments(entries[..|entries| - 1]) + CommentsOf(entries[|entries| - 1])
  }

  function Occurrences(entries: seq<Entry>, le: Order): set<Occurrence> {
    (set e <- entries :: PostOccurrence(e, le)) + (set x <- Comments(entries) :: CommentOccurrence(x, le))
  }

  function AccountFor(ref: AccountRef): Account {
    Account(ref, ref.platform, ref.namespace, ref.key)
  }

  function Accounts(entries: seq<Entry>): set<Account> {
    (set e <- entries | AuthorOf(e.row).Some? :: AccountFor(AuthorOf(e.row).value))
    + (set x <- Comments(entries) | CommentAuthorOf(x.entry.row, x.comment).Some? :: AccountFor(CommentAuthorOf(x.entry.row, x.comment).value))
  }

  function AliasOf(o: Occurrence, nickname: string, observedAt: string, capturedAt: string): Alias
    requires o.account.Some?
  {
    Alias(AliasRef(o.account.value, nickname, observedAt, capturedAt, o.ref),
          o.account.value, nickname, observedAt, capturedAt, o.ref, o.taskId)
  }

  predicate Interacts(x: CommentEntry) {
    CommentAuthorOf(x.entry.row, x.comment).Some? && AuthorOf(x.entry.row).Some?
  }

  function InteractionOf(x: CommentEntry, le: Order): Interaction
    requires Interacts(x)
  {
    var post, comment := PostOccurrence(x.entry, le), CommentOccurrence(x, le);
    Interaction(InteractionRef(x.entry.task, post.snapshot, comment.account.value, post.account.value, comment.ref, post.ref),
                x.entry.task, post.snapshot, comment.account.value, post.account.value, comment.ref, post.ref)
  }

  function Interactions(entries: seq<Entry>, le: Order): set<Interaction> {
    set x <- Comments(entries) | Interacts(x) :: InteractionOf(x, le)
  }

  // ---- the order in which the builder visits posts and comments, and what it appends on the way ----

  datatype Step = AtPost(entry: Entry) | AtComment(x: CommentEntry)

  function StepsOf(e: Entry): seq<Step> {
    [AtPost(e)] + seq(|e.row.comments|, i requires 0 <= i < |e.row.comments| => AtComment(CommentEntry(e, e.row.comments[i])))
  }

  function Steps(entries: seq<Entry>): seq<Step> {
    if entries == [] then [] else Steps(entries[..|entries| - 1]) + StepsOf(entries[|entries| - 1])
  }

  function OccurrenceAt(s: Step, le: Order): Occurrence {
    match s
    case AtPost(e) => PostOccurrence(e, le)
    case AtComment(x) => CommentOccurrence(x, le)
  }

  /** A resolved author with a nickname. */
  predicate IsNamed(s: Step) {
    match s
    case AtPost(e) => AuthorOf(e.row).Some? && e.row.author.nickname != ""
    case AtComment(x) => CommentAuthorOf(x.entry.row, x.comment).Some? && x.comment.author.nickname != ""
  }

  function AliasAt(s: Step, le: Order): Option<Alias> {
    if !IsNamed(s) then None
    else
      match s
      case AtPost(e) => Some(AliasOf(PostOccurrence(e, le), e.row.author.nickname, e.row.capturedAt, e.row.capturedAt))
      case AtComment(x) => Some(AliasOf(CommentOccurrence(x, le), x.comment.author.nickname, x.comment.time, x.entry.row.capturedAt))
  }

  function Aliases(entries: seq<Entry>, le: Order): set<Alias> {
    set s <- Steps(entries) | IsNamed(s) :: AliasAt(s, le).value
  }

  predicate IsInteraction(s: Step) {
    s.AtComment? && Interacts(s.x)
  }

  function InteractionAt(s: Step, le: Order): Option<Interaction> {
    if IsInteraction(s) then Some(InteractionOf(s.x, le)) else None
  }

  function FoundOccurrence(le: Order): Step -> Option<Occurrence> {
    (s: Step) => Some(OccurrenceAt(s, le))
  }

  function FoundAlias(le: Order): Step -> Option<Alias> {
    (s: Step) => AliasAt(s, le)
  }

  function FoundInteraction(le: Order): Step -> Option<Interaction> {
    (s: Step) => InteractionAt(s, le)
  }

  function Listed<T>(o: Option<T>): seq<T> {
    if o.Some? then [o.value] else []
  }

  /** The list to which every step appends what it finds. */
  function Gather<T>(steps: seq<Step>, found: Step -> Option<T>): seq<T> {
    if steps == [] then [] else Gather(steps[..|steps| - 1], found) + Listed(found(steps[|steps| - 1]))
  }

  function SnapshotIdentity(s: Snapshot): SnapshotRef {
    SnapshotRef(s.taskId, s.source, s.capturedAt, s.coverage, s.quality)
  }

  function SnapshotFor(ref: SnapshotRef, revision: Revision): Snapshot {
    Snapshot(ref, ref.taskId, ref.source, ref.capturedAt, ref.coverage, ref.quality, revision)
  }

  function IdentitiesOf(snapshots: seq<Snapshot>): seq<SnapshotRef> {
    seq(|snapshots|, i requires 0 <= i < |snapshots| => SnapshotIdentity(snapshots[i]))
  }

  // ---- what the builder accepts ----

  predicate RowOk(r: Row) {
    && r.contentKey != ""
    && (r.rawTitle != "" && r.storedTitle != "" ==> r.rawTitle == r.storedTitle)
    && r.decision in DECISIONS && r.riskLevel in LEVELS
  }

  predicate CommentOk(r: Row, c: SourceComment) {
    && c.commentId != ""
    && (c.awemeId == "" || c.awemeId == r.contentKey)
    && (c.parentCommentId == "" || c.parentCommentId == "0")
    && c.auditStatus == "completed" && c.riskLevel in LEVELS
  }

  const PostInTask: Entry -> (string, string) := (e: Entry) => (e.task, e.row.contentKey)
  const PostAnywhere: Entry -> (string, string) := (e: Entry) => (PlatformOf(e.row.platform), e.row.contentKey)
  const CommentInTask: CommentEntry -> (string, string) := (x: CommentEntry) => (x.entry.task, x.comment.commentId)
  const CommentAnywhere: CommentEntry -> (string, string) := (x: CommentEntry) => (PlatformOf(x.entry.row.platform), x.comment.commentId)

  ghost predicate Accepts(entries: seq<Entry>) {
    && (forall e <- entries :: RowOk(e.row) && forall c <- e.row.comments :: CommentOk(e.row, c))
    && UniqueBy(entries, PostInTask) && UniqueBy(entries, PostAnywhere)
    && UniqueBy(Comments(entries), CommentInTask) && UniqueBy(Comments(entries), CommentAnywhere)
  }

  /** The same entries in another order, each as often as before (the code sorts by digest). */
  ghost predicate Reorders<T>(s: seq<T>, t: seq<T>) {
    multiset(s) == multiset(t)
  }

  /** A listing of the set without repetition, in some order. */
  ghost predicate Enumerates<T>(s: seq<T>, elements: set<T>) {
    NoDuplicates(s) && Elements(s) == elements
  }

  function HashesOf(c: Corpus): Hashes {
    Hashes(IdentitiesOf(c.snapshots), c.accounts, c.aliases, c.occurrences, c.interactions)
  }

  /** `build_account_fixture` from the rows onward. */
  ghost predicate IsBuilt(c: Corpus, tasks: seq<string>, jobs: map<string, Job>, le: Order)
    requires forall t <- tasks :: t in jobs
  {
    var entries := Entries(tasks, jobs);
    && c.tasks == tasks
    && c.snapshots == seq(|tasks|, i requires 0 <= i < |tasks| => assert tasks[i] in tasks; SnapshotFor(SnapshotRefOf(tasks[i], jobs[tasks[i]], le), c.revision))
    && Enumerates(c.accounts, Accounts(entries))
    && Reorders(c.aliases, Gather(Steps(entries), FoundAlias(le)))
    && Reorders(c.occurrences, Gather(Steps(entries), FoundOccurrence(le)))
    && Reorders(c.interactions, Gather(Steps(entries), FoundInteraction(le)))
    && c.hashes == HashesOf(c)
    && c.revision == Revision(c.tasks, c.hashes)
  }

  // ---- what the validation demands ----

  function PostIndex(occurrences: seq<Occurrence>): map<(string, string), Occurrence> {
    if occurrences == [] then map[]
    else
      var o := occurrences[|occurrences| - 1];
      var index := PostIndex(occurrences[..|occurrences| - 1]);
      if o.kind.PostAuthor? then index[(o.taskId, o.post.contentKey) := o] else index
  }

  predicate TitleOk(p: PostView) {
    if p.titleSource == "audit_generated" then p.displayTitle != ""
    else if p.titleSource == "source" then p.sourceTitle != "" && p.displayTitle == p.sourceTitle
    else p.titleSource == "unavailable" && p.displayTitle == ""
  }

  predicate Predates(time: string, parentTime: string, le: Order) {
    time != "" && parentTime != "" && le(time, parentTime) && time != parentTime
  }

  predicate CommentViewOk(o: Occurrence) {
    o.comment.Some? && o.comment.value.commentId != ""
    && o.comment.value.auditStatus == o.auditStatus && o.comment.value.riskLevel == o.riskLevel
  }

  predicate ParentOk(o: Occurrence, index: map<(string, string), Occurrence>, le: Order) {
    var key := (o.taskId, o.post.contentKey);
    && key in index
    && o.parentPost == Some(index[key].ref) && o.parentAuthor == index[key].account && o.post == index[key].post
    && !Predates(o.occurredAt, index[key].occurredAt, le)
  }

  function IdentityOfOccurrence(o: Occurrence): OccurrenceRef {
    OccurrenceRef(o.kind, o.taskId, o.snapshot, o.post.contentKey,
                  if o.kind.CommentAuthor? && o.comment.Some? then Some(o.comment.value.commentId) else None, o.recordHash)
  }

  predicate OccurrenceOk(c: Corpus, o: Occurrence, le: Order) {
    && o.taskId in c.tasks
    && (exists s <- c.snapshots :: s.ref == o.snapshot && s.taskId == o.taskId)
    && (if o.resolved then exists a <- c.accounts :: o.account == Some(a.ref) else o.account == None)
    && TitleOk(o.post)
    && o.ref == IdentityOfOccurrence(o)
    && o.auditStatus != "" && o.riskLevel in LEVELS
    && (o.kind.PostAuthor? ==>
          o.occurredAt == o.post.publishedAt && o.auditStatus == "completed" && o.decision.Some? && o.decision.value in DECISIONS)
    && (o.kind.CommentAuthor? ==> CommentViewOk(o) && ParentOk(o, PostIndex(c.occurrences), le))
  }

  function PostsIn(occurrences: seq<Occurrence>): seq<Occurrence> {
    if occurrences == [] then []
    else PostsIn(occurrences[..|occurrences| - 1]) + (if occurrences[|occurrences| - 1].kind.PostAuthor? then [occurrences[|occurrences| - 1]] else [])
  }

  function CommentsIn(occurrences: seq<Occurrence>): seq<Occurrence> {
    if occurrences == [] then []
    else CommentsIn(occurrences[..|occurrences| - 1]) + (if occurrences[|occurrences| - 1].kind.CommentAuthor? then [occurrences[|occurrences| - 1]] else [])
  }

  function CommentIdOf(o: Occurrence): string {
    if o.comment.Some? then o.comment.value.commentId else ""
  }

  predicate AliasOk(c: Corpus, a: Alias) {
    && a.ref == AliasRef(a.account, a.nickname, a.observedAt, a.capturedAt, a.source)
    && exists o <- c.occurrences :: o.ref == a.source && o.account == Some(a.account) && o.taskId == a.taskId
  }

  predicate InteractionOk(c: Corpus, x: Interaction) {
    && x.ref == InteractionRef(x.taskId, x.snapshot, x.actor, x.postAuthor, x.comment, x.parentPost)
    && exists comment, post | comment in c.occurrences && post in c.occurrences ::
         && comment.ref == x.comment && comment.kind.CommentAuthor? && post.ref == x.parentPost && post.kind.PostAuthor?
         && comment.parentPost == Some(post.ref)
         && comment.taskId == post.taskId == x.taskId && comment.snapshot == post.snapshot == x.snapshot
         && comment.account == Some(x.actor) && post.account == Some(x.postAuthor)
  }

  const OccurrenceKey: Occurrence -> OccurrenceRef := (o: Occurrence) => o.ref
  const GlobalPost: Occurrence -> (string, string) := (o: Occurrence) => (o.post.platform, o.post.contentKey)
  const TaskComment: Occurrence -> (string, string) := (o: Occurrence) => (o.taskId, CommentIdOf(o))
  const GlobalComment: Occurrence -> (string, string) := (o: Occurrence) => (o.post.platform, CommentIdOf(o))
  const SnapshotKey: Snapshot -> SnapshotRef := (s: Snapshot) => s.ref
  const AccountKey: Account -> AccountRef := (a: Account) => a.ref
  const AliasKey: Alias -> AliasRef := (a: Alias) => a.ref
  const InteractionKey: Interaction -> InteractionRef := (x: Interaction) => x.ref

  ghost predicate SnapshotsOk(c: Corpus, le: Order) {
    && Lists(c.tasks, Elements(c.tasks), le)
    && UniqueBy(c.snapshots, SnapshotKey)
    && (set s <- c.snapshots :: s.taskId) == Elements(c.tasks)
    && forall s <- c.snapshots :: s.ref == SnapshotIdentity(s) && s.revision == c.revision
  }

  ghost predicate AccountsOk(c: Corpus) {
    UniqueBy(c.accounts, AccountKey) && forall a <- c.accounts :: a.ref == AccountRef(a.platform, a.namespace, a.key)
  }

  ghost predicate OccurrencesUnique(c: Corpus) {
    && UniqueBy(c.occurrences, OccurrenceKey)
    && UniqueBy(PostsIn(c.occurrences), GlobalPost)
    && UniqueBy(CommentsIn(c.occurrences), TaskComment)
    && UniqueBy(CommentsIn(c.occurrences), GlobalComment)
  }

  ghost predicate AliasesOk(c: Corpus) {
    UniqueBy(c.aliases, AliasKey) && forall a <- c.aliases :: AliasOk(c, a)
  }

  ghost predicate InteractionsOk(c: Corpus) {
    UniqueBy(c.interactions, InteractionKey) && forall x <- c.interactions :: InteractionOk(c, x)
  }

  ghost predicate HashesOk(c: Corpus) {
    c.hashes == HashesOf(c) && c.revision == Revision(c.tasks, HashesOf(c))
  }

  /** `_validate`. */
  ghost predicate IsValid(c: Corpus, le: Order) {
    && SnapshotsOk(c, le) && AccountsOk(c) && OccurrencesUnique(c)
    && (forall o <- c.occurrences :: OccurrenceOk(c, o, le))
    && AliasesOk(c) && InteractionsOk(c) && HashesOk(c)
  }
}
