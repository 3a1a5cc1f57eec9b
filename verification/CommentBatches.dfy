/**
  Comments of a frozen report delivered in batches (`comment_batches.py` over `_comment_page`):
  a turn prepares one batch, and only the acknowledgement of the completed turn moves the
  progress of its query.
*/
module CommentBatches {
  import opened Wrappers
  import opened Arguments
  import R = ReportTaskRefs

  datatype Comment = Comment(id: string, content: string, author: string, publishedAt: string,
                             auditStatus: string, riskLevel: string)

  datatype RiskFilter = All | Risk | NoRisk | Unknown

  datatype Report = Report(posts: set<string>, commentsByPost: map<string, seq<Comment>>)

  /** The session a service answers and the report it is bound to. */
  datatype Service = Service(sessionId: string, report: Report)

  datatype Query = Query(postId: string, filter: RiskFilter)

  datatype Page = Page(query: Query, postRef: string, sequence: nat, comments: seq<Comment>, matched: nat,
                       start: nat, end: nat, cursor: Option<string>, hasMore: bool, acknowledged: bool)

  datatype Progress = Progress(end: nat, cursor: Option<string>, hasMore: bool, matched: nat)

  datatype Delivery = Delivery(pages: map<string, Page>, progress: map<Query, Progress>)

  const EMPTY := Delivery(map[], map[])

  /** The digest that names a batch, read as injective. */
  datatype BatchRef = BatchRef(sessionId: string, turnId: string)

  datatype Receipt = Receipt(batchRef: BatchRef, postRef: string, filter: RiskFilter, matched: nat, start: nat,
                             end: nat, returned: nat, remaining: nat, hasMore: bool)

  datatype BatchArgs = BatchArgs(postRef: string, action: string, riskFilter: Option<string>, limit: Option<int>)

  const BATCH_SIZE := 100

  const SYNTHETIC := "reference-restore:"

  predicate IsSynthetic(turnId: string) {
    SYNTHETIC <= turnId
  }

  function FilterName(filter: RiskFilter): string {
    match filter
    case All => "all"
    case Risk => "risk"
    case NoRisk => "no_risk"
    case Unknown => "unknown"
  }

  function ParseFilter(name: string): Option<RiskFilter> {
    if name == "all" then Some(All)
    else if name == "risk" then Some(Risk)
    else if name == "no_risk" then Some(NoRisk)
    else if name == "unknown" then Some(Unknown)
    else None
  }

  /** `_comment_matches_risk_filter`. */
  predicate Matches(c: Comment, filter: RiskFilter) {
    match filter
    case All => true
    case Risk => c.auditStatus == "completed" && c.riskLevel in ["low", "medium", "high"]
    case NoRisk => c.auditStatus == "completed" && c.riskLevel == "none"
    case Unknown => c.auditStatus != "completed"
  }

  function Select(comments: seq<Comment>, filter: RiskFilter): seq<Comment> {
    if comments == [] then []
    else (if Matches(comments[0], filter) then [comments[0]] else []) + Select(comments[1..], filter)
  }

  /** The frozen comments that a query pages through, in their frozen order. */
  function Matching(report: Report, q: Query): seq<Comment> {
    if q.postId in report.commentsByPost then Select(report.commentsByPost[q.postId], q.filter) else []
  }

  function Ids(comments: seq<Comment>): seq<string> {
    seq(|comments|, i requires 0 <= i < |comments| => comments[i].id)
  }

  function OrderOf(report: Report, q: Query): R.Digest {
    R.OfFilteredIds(FilterName(q.filter), Ids(Matching(report, q)))
  }

  function ReceiptOf(sessionId: string, turnId: string, p: Page): Receipt {
    Receipt(BatchRef(sessionId, turnId), p.postRef, p.query.filter, p.matched, p.start, p.end, |p.comments|,
            if p.matched < p.end then 0 else p.matched - p.end, p.hasMore)
  }

  ghost predicate IsMaxSequence(pages: map<string, Page>, m: nat) {
    && (forall t <- pages :: pages[t].sequence <= m)
    && (pages == map[] ==> m == 0)
    && (pages != map[] ==> exists t <- pages :: pages[t].sequence == m)
  }

  ghost function MaxSequence(pages: map<string, Page>): (m: nat)
    ensures IsMaxSequence(pages, m)
  {
    HasMaximum(pages);
    var m: nat :| IsMaxSequence(pages, m);
    m
  }

  lemma HasMaximum(pages: map<string, Page>)
    ensures exists m: nat :: IsMaxSequence(pages, m)
    decreases |pages|
  {
    if pages == map[] {
      assert IsMaxSequence(pages, 0);
    } else {
      var t :| t in pages;
      var rest := pages - {t};
      HasMaximum(rest);
      var m: nat :| IsMaxSequence(rest, m);
      assert forall u <- pages :: u == t || u in rest;
      assert IsMaxSequence(pages, if m < pages[t].sequence || rest == map[] then pages[t].sequence else m);
    }
  }

  // ---- one page of comments ----

  datatype PageData = PageData(comments: seq<Comment>, matched: nat, cursor: Option<string>)

  function ResolvePost(svc: Service, reg: R.Registry, postRef: string): Result<string> {
    var record := R.Resolve(reg, svc.sessionId, postRef, Some(R.Post));
    if record.Err? then Err(record.code)
    else if record.value.objectId !in svc.report.posts then Err("scope_object_missing")
    else Ok(record.value.objectId)
  }

  /** The end of `_comment_page`: the slice at the offset, and a cursor for what follows it. */
  function PageAt(svc: Service, reg: R.Registry, q: Query, limit: nat, offset: nat): (R.Registry, PageData) {
    var all := Matching(svc.report, q);
    var selected := if offset <= |all| then all[offset..Min(offset + limit, |all|)] else [];
    var next := offset + |selected|;
    if next < |all| && svc.sessionId in reg.scopes then
      var (reg', token) := R.IssueCommentCursor(reg, reg.scopes[svc.sessionId], q.postId, OrderOf(svc.report, q), next);
      (reg', PageData(selected, |all|, Some(token)))
    else (reg, PageData(selected, |all|, None))
  }

  /** `_comment_page`, for the comments and the cursor of its result. */
  function CommentPage(svc: Service, reg: R.Registry, postRef: string, filter: RiskFilter, limit: nat,
                       cursor: Option<string>): (R.Registry, Result<PageData>)
  {
    var post := ResolvePost(svc, reg, postRef);
    if post.Err? then (reg, Err(post.code))
    else
      var q := Query(post.value, filter);
      var offset :=
        if cursor.None? then Ok(0)
        else
          var resolved := R.ResolveCommentCursor(reg, svc.sessionId, cursor.value, q.postId, OrderOf(svc.report, q));
          if resolved.Err? then Err(resolved.code) else Ok(resolved.value.nextOffset);
      if offset.Err? then (reg, Err(offset.code))
      else
        var (reg', data) := PageAt(svc, reg, q, limit, offset.value);
        (reg', Ok(data))
  }

  // ---- preparing a batch ----

  datatype Checked = Checked(query: Query, postRef: string, continues: bool, limit: nat)

  /** The checks of `read_batch` behind those of the limit and the turn. */
  function CheckRest(svc: Service, reg: R.Registry, args: BatchArgs, limit: nat): Result<Checked> {
    var action := RequireString(args.action);
    var risk := RequireString(if args.riskFilter.Some? then args.riskFilter.value else "all");
    var postRef := RequireString(args.postRef);
    if action.Err? then Err(action.code)
    else if action.value != "start" && action.value != "continue" then Err("invalid_arguments")
    else if risk.Err? then Err(risk.code)
    else if ParseFilter(risk.value).None? then Err("invalid_arguments")
    else if postRef.Err? then Err(postRef.code)
    else
      var post := ResolvePost(svc, reg, postRef.value);
      if post.Err? then Err(post.code)
      else Ok(Checked(Query(post.value, ParseFilter(risk.value).value), postRef.value, action.value == "continue", limit))
  }

  function BatchLimit(args: BatchArgs): Result<int> {
    RequireInt(if args.limit.Some? then args.limit.value else BATCH_SIZE, 1, BATCH_SIZE)
  }

  /** The checks of `read_batch` up to the lock, in their order. */
  function CheckBatch(svc: Service, reg: R.Registry, args: BatchArgs, turnId: string): Result<Checked> {
    var limit := BatchLimit(args);
    if limit.Err? then Err(limit.code)
    else if Strip(turnId) == "" then Err("invalid_arguments")
    else if IsSynthetic(turnId) then Err("comment_batch_real_turn_required")
    else CheckRest(svc, reg, args, limit.value)
  }

  /** The checks as they were before synthetic turns were refused: saved states can hold pages of such turns. */
  function CheckBatchBefore(svc: Service, reg: R.Registry, args: BatchArgs, turnId: string): Result<Checked> {
    var limit := BatchLimit(args);
    if limit.Err? then Err(limit.code)
    else if !IsSynthetic(turnId) then Err("not_synthetic")
    else CheckRest(svc, reg, args, limit.value)
  }

  /** What a call leaves behind; `stored` says that a page was stored and has to be saved. */
  datatype Prepared = Prepared(reg: R.Registry, delivery: Delivery, outcome: Result<Receipt>, stored: bool)

  function PageOf(c: Checked, sequence: nat, offset: nat, data: PageData): Page {
    Page(c.query, c.postRef, sequence, data.comments, data.matched,
         if data.comments != [] then offset + 1 else 0, offset + |data.comments|, data.cursor, data.cursor.Some?, false)
  }

  function StorePage(svc: Service, reg: R.Registry, d: Delivery, turnId: string, p: Page): Prepared {
    Prepared(reg, d.(pages := d.pages[turnId := p]), Ok(ReceiptOf(svc.sessionId, turnId, p)), true)
  }

  /** `read_batch` under its lock, before it saves. */
  ghost function PrepareChecked(svc: Service, reg: R.Registry, d: Delivery, c: Checked, turnId: string): Prepared {
    if turnId in d.pages then
      Prepared(reg, d,
               if d.pages[turnId].query != c.query then Err("comment_batch_turn_limit")
               else Ok(ReceiptOf(svc.sessionId, turnId, d.pages[turnId])), false)
    else if c.continues && c.query !in d.progress then Prepared(reg, d, Err("comment_batch_not_started"), false)
    else
      var sequence := 1 + MaxSequence(d.pages);
      if c.continues && !d.progress[c.query].hasMore then
        var previous := d.progress[c.query];
        StorePage(svc, reg, d, turnId, PageOf(c, sequence, previous.end, PageData([], previous.matched, None)))
      else
        var offset, cursor := if c.continues then d.progress[c.query].end else 0,
                              if c.continues then d.progress[c.query].cursor else None;
        var (reg', data) := CommentPage(svc, reg, c.postRef, c.query.filter, c.limit, cursor);
        if data.Err? then Prepared(reg', d, Err(data.code), false)
        else StorePage(svc, reg', d, turnId, PageOf(c, sequence, offset, data.value))
  }

  /** `read_batch`, before it saves. */
  ghost function Prepare(svc: Service, reg: R.Registry, d: Delivery, args: BatchArgs, turnId: string): Prepared {
    var checked := CheckBatch(svc, reg, args, turnId);
    if checked.Err? then Prepared(reg, d, Err(checked.code), false)
    else PrepareChecked(svc, reg, d, checked.value, turnId)
  }

  /** A read for a synthetic turn, as it was before such turns were refused. */
  ghost function PrepareBefore(svc: Service, reg: R.Registry, d: Delivery, args: BatchArgs, turnId: string): Prepared {
    var checked := CheckBatchBefore(svc, reg, args, turnId);
    if checked.Err? then Prepared(reg, d, Err(checked.code), false)
    else PrepareChecked(svc, reg, d, checked.value, turnId)
  }

  predicate NeedsAcknowledgement(d: Delivery, turnId: string) {
    turnId in d.pages && !d.pages[turnId].acknowledged
  }

  /** `acknowledge`, before it saves. */
  function Acknowledged(d: Delivery, turnId: string): Delivery {
    if !NeedsAcknowledgement(d, turnId) then d
    else
      var p := d.pages[turnId];
      Delivery(d.pages[turnId := p.(acknowledged := true)],
               d.progress[p.query := Progress(p.end, p.cursor, p.hasMore, p.matched)])
  }

  /** The repair at the start of `reconcile`. */
  function WithoutSynthetic(d: Delivery): Delivery {
    d.(pages := map t | t in d.pages && !IsSynthetic(t) :: d.pages[t])
  }

  // ---- reading back what was delivered ----

  /** `read_delivery` with a batch reference and a position: the comment that the reader saw under that number. */
  function ReadPosition(svc: Service, reg: R.Registry, d: Delivery, batch: BatchRef, position: int): Result<Comment> {
    if batch.sessionId != svc.sessionId || batch.turnId !in d.pages || !d.pages[batch.turnId].acknowledged
    then Err("comment_batch_not_delivered")
    else
      var p := d.pages[batch.turnId];
      var post := ResolvePost(svc, reg, p.postRef);
      if post.Err? then Err(post.code)
      else if position < 1 || position > (if p.end < 1 then 1 else p.end) then Err("invalid_arguments")
      else if p.comments == [] || position < p.start || p.start + |p.comments| <= position then Err("comment_position_out_of_batch")
      else Ok(p.comments[position - p.start])
  }

  // ---- the invariant of a session's deliveries ----

  ghost predicate IsSlice(report: Report, p: Page) {
    var all := Matching(report, p.query);
    && |p.comments| <= p.end <= |all|
    && p.comments == all[p.end - |p.comments|..p.end]
    && p.matched == |all|
    && p.start == (if p.comments == [] then 0 else p.end - |p.comments| + 1)
    && (p.hasMore <==> p.end < |all|)
    && (p.hasMore <==> p.cursor.Some?)
  }

  /** The record that a live cursor of this query leads to. */
  ghost predicate LeadsTo(svc: Service, reg: R.Registry, token: string, q: Query, next: nat) {
    && svc.sessionId in reg.scopes
    && token in reg.commentCursors
    && reg.commentCursors[token] ==
         R.CommentCursor(token, reg.scopes[svc.sessionId], q.postId, OrderOf(svc.report, q), next,
                         "list_post_risk_comments", "post_risk_comment_directory")
  }

  /** The stored cursor leads to the position after the page. */
  ghost predicate CursorLive(svc: Service, reg: R.Registry, p: Page) {
    p.cursor.Some? ==> LeadsTo(svc, reg, p.cursor.value, p.query, p.end)
  }

  ghost predicate PostRefLive(svc: Service, reg: R.Registry, postRef: string, postId: string) {
    && svc.sessionId in reg.scopes
    && postRef in reg.records
    && R.IdentityOf(reg.records[postRef]) == R.TokenIdentity(reg.scopes[svc.sessionId], R.Post, postId)
    && postId in svc.report.posts
  }

  ghost predicate PageOk(svc: Service, reg: R.Registry, p: Page) {
    IsSlice(svc.report, p) && CursorLive(svc, reg, p) && PostRefLive(svc, reg, p.postRef, p.query.postId)
  }

  /** An acknowledged page of the query shows this position. */
  ghost predicate Shown(d: Delivery, q: Query, position: nat) {
    exists t <- d.pages ::
      d.pages[t].acknowledged && d.pages[t].query == q && d.pages[t].comments != [] && d.pages[t].start <= position <= d.pages[t].end
  }

  ghost predicate ShownUpTo(d: Delivery, q: Query, end: nat) {
    forall i | 1 <= i <= end :: Shown(d, q, i)
  }

  /** No page was prepared beyond what was shown: everything before it is on acknowledged pages. */
  ghost predicate Gapless(d: Delivery) {
    forall t <- d.pages :: |d.pages[t].comments| <= d.pages[t].end
      && ShownUpTo(d, d.pages[t].query, d.pages[t].end - |d.pages[t].comments|)
  }

  ghost predicate Backs(p: Page, q: Query, progress: Progress) {
    p.acknowledged && p.query == q && progress == Progress(p.end, p.cursor, p.hasMore, p.matched)
  }

  ghost predicate ProgressBacked(d: Delivery) {
    forall q <- d.progress :: exists t <- d.pages :: Backs(d.pages[t], q, d.progress[q])
  }

  ghost predicate AcknowledgedCompleted(d: Delivery, completed: set<string>) {
    forall t <- d.pages :: d.pages[t].acknowledged ==> t in completed && !IsSynthetic(t)
  }

  ghost predicate InOrder(d: Delivery) {
    forall t, u | t in d.pages && u in d.pages && t != u && !IsSynthetic(t) && !IsSynthetic(u) ::
      d.pages[t].sequence != d.pages[u].sequence
  }

  ghost predicate PagesOk(svc: Service, reg: R.Registry, d: Delivery) {
    forall t <- d.pages :: PageOk(svc, reg, d.pages[t])
  }

  ghost predicate DeliveryOk(svc: Service, reg: R.Registry, d: Delivery, completed: set<string>) {
    && PagesOk(svc, reg, d)
    && Gapless(d) && ProgressBacked(d) && AcknowledgedCompleted(d, completed) && InOrder(d)
  }

  /** What the pages of a session need of its registry. */
  ghost predicate RegistryOk(reg: R.Registry) {
    R.Valid(reg) && R.Spent(reg.counter, reg.commentCursors.Keys)
  }

  // ---- how the invariant survives ----

  lemma LiveResolves(svc: Service, reg: R.Registry, token: string, q: Query, next: nat)
    requires R.Valid(reg) && LeadsTo(svc, reg, token, q, next)
    ensures
      var c := R.ResolveCommentCursor(reg, svc.sessionId, token, q.postId, OrderOf(svc.report, q));
      c.Ok? && c.value.nextOffset == next
  {
  }

  lemma PostResolves(svc: Service, reg: R.Registry, postRef: string, postId: string)
    requires R.Valid(reg)
    ensures PostRefLive(svc, reg, postRef, postId) <==> ResolvePost(svc, reg, postRef) == Ok(postId)
  {
    R.ResolvedIsCurrent(reg, svc.sessionId, postRef, Some(R.Post));
  }

  lemma ShownGrows(d: Delivery, d': Delivery, q: Query, end: nat)
    requires ShownUpTo(d, q, end)
    requires forall t <- d.pages | d.pages[t].acknowledged :: t in d'.pages && d'.pages[t] == d.pages[t]
    ensures ShownUpTo(d', q, end)
  {
    forall i | 1 <= i <= end ensures Shown(d', q, i) {
      assert Shown(d, q, i);
    }
  }

  /** Acknowledged pages stay; every page of `d'` is one of `d`, maybe acknowledged since, or `p`. */
  ghost predicate Extends(d: Delivery, d': Delivery, p: Page) {
    && (forall t <- d.pages | d.pages[t].acknowledged :: t in d'.pages && d'.pages[t] == d.pages[t])
    && (forall t <- d'.pages ::
          (t in d.pages && d'.pages[t].(acknowledged := false) == d.pages[t].(acknowledged := false))
          || d'.pages[t] == p)
  }

  lemma GaplessKept(d: Delivery, d': Delivery, p: Page)
    requires Gapless(d) && Extends(d, d', p)
    requires |p.comments| <= p.end && ShownUpTo(d, p.query, p.end - |p.comments|)
    ensures Gapless(d')
  {
    forall t | t in d'.pages
      ensures |d'.pages[t].comments| <= d'.pages[t].end
      ensures ShownUpTo(d', d'.pages[t].query, d'.pages[t].end - |d'.pages[t].comments|)
    {
      var x := if d'.pages[t] == p then p else d.pages[t];
      assert x.(acknowledged := false) == d'.pages[t].(acknowledged := false);
      ShownGrows(d, d', x.query, x.end - |x.comments|);
    }
  }

  lemma BackingKept(d: Delivery, d': Delivery)
    requires ProgressBacked(d)
    requires forall t <- d.pages | d.pages[t].acknowledged :: t in d'.pages && d'.pages[t] == d.pages[t]
    requires forall q <- d'.progress :: (q in d.progress && d'.progress[q] == d.progress[q])
                                        || exists t <- d'.pages :: Backs(d'.pages[t], q, d'.progress[q])
    ensures ProgressBacked(d')
  {
    forall q | q in d'.progress ensures exists t <- d'.pages :: Backs(d'.pages[t], q, d'.progress[q]) {
      if q in d.progress && d'.progress[q] == d.progress[q] {
        var t :| t in d.pages && Backs(d.pages[t], q, d.progress[q]);
        assert Backs(d'.pages[t], q, d'.progress[q]);
      }
    }
  }

  lemma GrowthKeepsPageOk(svc: Service, reg: R.Registry, reg': R.Registry, p: Page)
    requires R.Grows(reg, reg') && PageOk(svc, reg, p)
    requires svc.sessionId in reg.scopes && svc.sessionId in reg'.scopes && reg'.scopes[svc.sessionId] == reg.scopes[svc.sessionId]
    ensures PageOk(svc, reg', p)
  {
  }

  /** A registry that only grew, under the same scope, serves every delivery it served before. */
  lemma GrowthKeepsDeliveryOk(svc: Service, reg: R.Registry, reg': R.Registry, d: Delivery, completed: set<string>)
    requires R.Grows(reg, reg') && DeliveryOk(svc, reg, d, completed)
    requires svc.sessionId in reg.scopes && svc.sessionId in reg'.scopes && reg'.scopes[svc.sessionId] == reg.scopes[svc.sessionId]
    ensures DeliveryOk(svc, reg', d, completed)
  {
    forall t | t in d.pages ensures PageOk(svc, reg', d.pages[t]) {
      GrowthKeepsPageOk(svc, reg, reg', d.pages[t]);
    }
  }

  /** All that lies within a query's progress was shown. */
  lemma ProgressIsShown(svc: Service, reg: R.Registry, d: Delivery, completed: set<string>, q: Query)
    requires DeliveryOk(svc, reg, d, completed) && q in d.progress
    ensures ShownUpTo(d, q, d.progress[q].end)
    ensures exists t <- d.pages :: Backs(d.pages[t], q, d.progress[q]) && PageOk(svc, reg, d.pages[t])
  {
    var t :| t in d.pages && Backs(d.pages[t], q, d.progress[q]);
    var p := d.pages[t];
    assert PageOk(svc, reg, p) && IsSlice(svc.report, p);
    forall i | 1 <= i <= p.end ensures Shown(d, q, i) {
      if i > p.end - |p.comments| {
        assert p.comments != [] && p.start <= i <= p.end;
      }
    }
  }

  lemma StoreKeepsOrder(d: Delivery, turnId: string, p: Page)
    requires InOrder(d) && turnId !in d.pages && p.sequence == 1 + MaxSequence(d.pages)
    ensures InOrder(d.(pages := d.pages[turnId := p]))
  {
    assert IsMaxSequence(d.pages, MaxSequence(d.pages));
  }

  lemma StoreKeepsDeliveryOk(svc: Service, reg: R.Registry, d: Delivery, completed: set<string>, turnId: string, p: Page)
    requires DeliveryOk(svc, reg, d, completed) && turnId !in d.pages && PageOk(svc, reg, p)
    requires !p.acknowledged && p.sequence == 1 + MaxSequence(d.pages)
    requires ShownUpTo(d, p.query, p.end - |p.comments|)
    ensures DeliveryOk(svc, reg, d.(pages := d.pages[turnId := p]), completed)
  {
    var d' := d.(pages := d.pages[turnId := p]);
    assert |p.comments| <= p.end by {
      assert IsSlice(svc.report, p);
    }
    GaplessKept(d, d', p);
    BackingKept(d, d');
    StoreKeepsOrder(d, turnId, p);
    assert PagesOk(svc, reg, d') by {
      forall t | t in d'.pages ensures PageOk(svc, reg, d'.pages[t]) {
        assert t != turnId ==> PageOk(svc, reg, d.pages[t]);
      }
    }
    assert AcknowledgedCompleted(d', completed);
  }

  /** What the end of `_comment_page` returns is the slice at its offset, with a live cursor exactly when more follows. */
  lemma PageAtSlices(svc: Service, reg: R.Registry, q: Query, limit: nat, offset: nat)
    requires RegistryOk(reg) && svc.sessionId in reg.scopes && offset <= |Matching(svc.report, q)|
    ensures
      var all := Matching(svc.report, q);
      var (reg', data) := PageAt(svc, reg, q, limit, offset);
      && data.comments == all[offset..Min(offset + limit, |all|)] && data.matched == |all|
      && (data.cursor.Some? <==> offset + limit < |all|)
      && (data.cursor.Some? ==> LeadsTo(svc, reg', data.cursor.value, q, offset + limit))
      && R.Grows(reg, reg') && reg'.scopes == reg.scopes
  {
    R.NextTokenIsNew(reg, "q", reg.commentCursors.Keys);
  }

  /** The offset a batch has to start at. */
  function OffsetOf(d: Delivery, c: Checked): nat {
    if c.continues && c.query in d.progress then d.progress[c.query].end else 0
  }

  /** What a batch that is prepared now has to show. */
  ghost predicate Prepares(svc: Service, d: Delivery, c: Checked, p: Page) {
    var all := Matching(svc.report, c.query);
    && p.query == c.query && p.postRef == c.postRef && !p.acknowledged
    && p.sequence == 1 + MaxSequence(d.pages)
    && OffsetOf(d, c) <= |all|
    && p.comments == all[OffsetOf(d, c)..Min(OffsetOf(d, c) + c.limit, |all|)]
    && p.end == OffsetOf(d, c) + |p.comments|
  }

  ghost predicate CheckedOk(svc: Service, reg: R.Registry, c: Checked) {
    PostRefLive(svc, reg, c.postRef, c.query.postId) && 1 <= c.limit <= BATCH_SIZE
  }

  lemma CheckIsOk(svc: Service, reg: R.Registry, args: BatchArgs, limit: nat)
    requires R.Valid(reg) && 1 <= limit <= BATCH_SIZE && CheckRest(svc, reg, args, limit).Ok?
    ensures CheckedOk(svc, reg, CheckRest(svc, reg, args, limit).value)
  {
    var c := CheckRest(svc, reg, args, limit).value;
    PostResolves(svc, reg, c.postRef, c.query.postId);
  }

  lemma CheckedResolves(svc: Service, reg: R.Registry, args: BatchArgs, turnId: string)
    requires CheckBatch(svc, reg, args, turnId).Ok?
    ensures
      var c := CheckBatch(svc, reg, args, turnId).value;
      ResolvePost(svc, reg, c.postRef) == Ok(c.query.postId) && svc.sessionId in reg.scopes
  {
    hide RequireString, IsSynthetic;
  }

  /** A live progress leads `_comment_page` to the offset where its query stopped. */
  lemma FetchIsPageAt(svc: Service, reg: R.Registry, d: Delivery, completed: set<string>, c: Checked)
    requires R.Valid(reg) && DeliveryOk(svc, reg, d, completed) && CheckedOk(svc, reg, c)
    requires c.continues ==> c.query in d.progress && d.progress[c.query].hasMore
    ensures
      var (reg', data) := PageAt(svc, reg, c.query, c.limit, OffsetOf(d, c));
      CommentPage(svc, reg, c.postRef, c.query.filter, c.limit,
                  if c.continues then d.progress[c.query].cursor else None) == (reg', Ok(data))
  {
    PostResolves(svc, reg, c.postRef, c.query.postId);
    if c.continues {
      ProgressIsShown(svc, reg, d, completed, c.query);
      var t :| t in d.pages && Backs(d.pages[t], c.query, d.progress[c.query]) && PageOk(svc, reg, d.pages[t]);
      assert CursorLive(svc, reg, d.pages[t]) && d.pages[t].cursor.Some?;
      LiveResolves(svc, reg, d.progress[c.query].cursor.value, c.query, OffsetOf(d, c));
    }
  }

  lemma OffsetInRange(svc: Service, reg: R.Registry, d: Delivery, completed: set<string>, c: Checked)
    requires DeliveryOk(svc, reg, d, completed)
    ensures OffsetOf(d, c) <= |Matching(svc.report, c.query)|
  {
    if c.continues && c.query in d.progress {
      ProgressIsShown(svc, reg, d, completed, c.query);
    }
  }

  /** A page that `read_batch` fetches: the slice right after the progress, or at the beginning. */
  lemma FetchedPage(svc: Service, reg: R.Registry, d: Delivery, c: Checked, sequence: nat)
    requires RegistryOk(reg) && CheckedOk(svc, reg, c)
    requires OffsetOf(d, c) <= |Matching(svc.report, c.query)|
    requires sequence == 1 + MaxSequence(d.pages)
    ensures
      var (reg', data) := PageAt(svc, reg, c.query, c.limit, OffsetOf(d, c));
      var p := PageOf(c, sequence, OffsetOf(d, c), data);
      && Prepares(svc, d, c, p) && PageOk(svc, reg', p)
      && R.Grows(reg, reg') && reg'.scopes == reg.scopes
  {
    PageAtSlices(svc, reg, c.query, c.limit, OffsetOf(d, c));
    var (reg', data) := PageAt(svc, reg, c.query, c.limit, OffsetOf(d, c));
    var p := PageOf(c, sequence, OffsetOf(d, c), data);
    assert IsSlice(svc.report, p) && CursorLive(svc, reg', p);
    assert PostRefLive(svc, reg', c.postRef, c.query.postId);
  }

  /** After the last batch, `continue` prepares an empty page. */
  lemma FinishedPage(svc: Service, reg: R.Registry, d: Delivery, completed: set<string>, c: Checked, sequence: nat)
    requires DeliveryOk(svc, reg, d, completed) && CheckedOk(svc, reg, c)
    requires c.continues && c.query in d.progress && !d.progress[c.query].hasMore
    requires sequence == 1 + MaxSequence(d.pages)
    ensures
      var p := PageOf(c, sequence, d.progress[c.query].end, PageData([], d.progress[c.query].matched, None));
      Prepares(svc, d, c, p) && PageOk(svc, reg, p)
  {
    ProgressIsShown(svc, reg, d, completed, c.query);
  }

  /**
    A new turn is answered with exactly the next slice of the frozen comments: after the progress
    of its query for `continue`, from the beginning for `start`. Nothing else refuses it.
  */
  lemma PrepareStores(svc: Service, reg: R.Registry, d: Delivery, completed: set<string>, c: Checked, turnId: string)
    requires RegistryOk(reg) && DeliveryOk(svc, reg, d, completed) && CheckedOk(svc, reg, c) && turnId !in d.pages
    requires c.continues ==> c.query in d.progress
    ensures
      var p := PrepareChecked(svc, reg, d, c, turnId);
      && p.stored && turnId in p.delivery.pages
      && p.delivery == d.(pages := d.pages[turnId := p.delivery.pages[turnId]])
      && p.outcome == Ok(ReceiptOf(svc.sessionId, turnId, p.delivery.pages[turnId]))
      && Prepares(svc, d, c, p.delivery.pages[turnId])
      && PageOk(svc, p.reg, p.delivery.pages[turnId])
      && R.Grows(reg, p.reg) && p.reg.scopes == reg.scopes
      && (p.reg == reg || p.reg == PageAt(svc, reg, c.query, c.limit, OffsetOf(d, c)).0)
  {
    var sequence := 1 + MaxSequence(d.pages);
    if c.continues && !d.progress[c.query].hasMore {
      FinishedPage(svc, reg, d, completed, c, sequence);
    } else {
      OffsetInRange(svc, reg, d, completed, c);
      FetchIsPageAt(svc, reg, d, completed, c);
      FetchedPage(svc, reg, d, c, sequence);
    }
  }

  lemma PrepareKeepsDeliveryOk(svc: Service, reg: R.Registry, d: Delivery, completed: set<string>, c: Checked, turnId: string)
    requires RegistryOk(reg) && DeliveryOk(svc, reg, d, completed) && CheckedOk(svc, reg, c)
    ensures
      var p := PrepareChecked(svc, reg, d, c, turnId);
      && DeliveryOk(svc, p.reg, p.delivery, completed)
      && (p.reg == reg || p.reg == PageAt(svc, reg, c.query, c.limit, OffsetOf(d, c)).0)
  {
    if turnId !in d.pages && (c.continues ==> c.query in d.progress) {
      PrepareStores(svc, reg, d, completed, c, turnId);
      var p := PrepareChecked(svc, reg, d, c, turnId);
      GrowthKeepsDeliveryOk(svc, reg, p.reg, d, completed);
      if c.continues {
        ProgressIsShown(svc, reg, d, completed, c.query);
      }
      StoreKeepsDeliveryOk(svc, p.reg, d, completed, turnId, p.delivery.pages[turnId]);
    }
  }

  /** Only the first acknowledgement of a turn counts: it moves the progress of its query to the end of its page, and nothing else. */
  lemma AcknowledgeTells(d: Delivery, turnId: string)
    ensures turnId !in d.pages || d.pages[turnId].acknowledged ==> Acknowledged(d, turnId) == d
    ensures Acknowledged(Acknowledged(d, turnId), turnId) == Acknowledged(d, turnId)
    ensures turnId in d.pages && !d.pages[turnId].acknowledged ==>
      var d', p := Acknowledged(d, turnId), d.pages[turnId];
      && d'.pages == d.pages[turnId := p.(acknowledged := true)]
      && d'.progress.Keys == d.progress.Keys + {p.query} && d'.progress[p.query] == Progress(p.end, p.cursor, p.hasMore, p.matched)
      && forall q <- d.progress :: q != p.query ==> d'.progress[q] == d.progress[q]
  {
  }

  lemma AcknowledgedPagesOk(svc: Service, reg: R.Registry, d: Delivery, turnId: string)
    requires PagesOk(svc, reg, d)
    ensures PagesOk(svc, reg, Acknowledged(d, turnId))
  {
    var d' := Acknowledged(d, turnId);
    forall t | t in d'.pages ensures PageOk(svc, reg, d'.pages[t]) {
      assert PageOk(svc, reg, d.pages[t]);
    }
  }

  lemma AcknowledgedGapless(d: Delivery, turnId: string)
    requires Gapless(d) && NeedsAcknowledgement(d, turnId)
    ensures Gapless(Acknowledged(d, turnId))
  {
    GaplessKept(d, Acknowledged(d, turnId), d.pages[turnId]);
  }

  lemma AcknowledgedBacked(d: Delivery, turnId: string)
    requires ProgressBacked(d) && NeedsAcknowledgement(d, turnId)
    ensures ProgressBacked(Acknowledged(d, turnId))
  {
    var d', p := Acknowledged(d, turnId), d.pages[turnId];
    assert Backs(d'.pages[turnId], p.query, d'.progress[p.query]);
    BackingKept(d, d');
  }

  lemma AcknowledgeKeepsDeliveryOk(svc: Service, reg: R.Registry, d: Delivery, completed: set<string>, turnId: string)
    requires DeliveryOk(svc, reg, d, completed) && turnId in completed && !IsSynthetic(turnId)
    ensures DeliveryOk(svc, reg, Acknowledged(d, turnId), completed)
  {
    if NeedsAcknowledgement(d, turnId) {
      AcknowledgedPagesOk(svc, reg, d, turnId);
      AcknowledgedGapless(d, turnId);
      AcknowledgedBacked(d, turnId);
      var d' := Acknowledged(d, turnId);
      assert AcknowledgedCompleted(d', completed) && InOrder(d');
    }
  }

  lemma RepairKeepsDeliveryOk(svc: Service, reg: R.Registry, d: Delivery, completed: set<string>)
    requires DeliveryOk(svc, reg, d, completed)
    ensures DeliveryOk(svc, reg, WithoutSynthetic(d), completed)
  {
    var d' := WithoutSynthetic(d);
    BackingKept(d, d');
    forall t | t in d'.pages
      ensures ShownUpTo(d', d'.pages[t].query, d'.pages[t].end - |d'.pages[t].comments|)
    {
      ShownGrows(d, d', d.pages[t].query, d.pages[t].end - |d.pages[t].comments|);
    }
  }

  // ---- what a reader gets ----

  /** The comment behind a shown position is the one the frozen report has there, and can be read back under its number. */
  lemma ShownIsReadable(svc: Service, reg: R.Registry, d: Delivery, completed: set<string>, q: Query, position: nat)
    requires R.Valid(reg) && DeliveryOk(svc, reg, d, completed) && Shown(d, q, position)
    ensures 1 <= position <= |Matching(svc.report, q)|
    ensures exists t ::
      && t in d.pages && d.pages[t].query == q && t in completed
      && ReadPosition(svc, reg, d, BatchRef(svc.sessionId, t), position) == Ok(Matching(svc.report, q)[position - 1])
  {
    var t :| t in d.pages && d.pages[t].acknowledged && d.pages[t].query == q && d.pages[t].comments != []
             && d.pages[t].start <= position <= d.pages[t].end;
    ReadBackIsExact(svc, reg, d, completed, t, position);
  }

  /**
    `read_delivery` answers a position exactly when the named batch was acknowledged and shows it,
    and then with the comment that the frozen report has at that position of the batch's query.
  */
  lemma ReadBackIsExact(svc: Service, reg: R.Registry, d: Delivery, completed: set<string>, turnId: string, position: int)
    requires R.Valid(reg) && DeliveryOk(svc, reg, d, completed)
    ensures
      var answer := ReadPosition(svc, reg, d, BatchRef(svc.sessionId, turnId), position);
      && (answer.Ok? <==>
            && turnId in d.pages && d.pages[turnId].acknowledged
            && d.pages[turnId].end - |d.pages[turnId].comments| < position <= d.pages[turnId].end)
      && (answer.Ok? ==>
            && turnId in completed
            && 1 <= position <= |Matching(svc.report, d.pages[turnId].query)|
            && answer.value == Matching(svc.report, d.pages[turnId].query)[position - 1])
  {
    if turnId in d.pages {
      var p := d.pages[turnId];
      assert PageOk(svc, reg, p) && IsSlice(svc.report, p);
      PostResolves(svc, reg, p.postRef, p.query.postId);
    }
  }

  /** The three audited views of a post's comments. */
  predicate HasKnownLevel(c: Comment) {
    c.auditStatus == "completed" ==> c.riskLevel in ["none", "low", "medium", "high"]
  }

  /**
    `risk`, `no_risk` and `unknown` never overlap, and together they show every comment exactly when
    no completed comment has a level outside the four known ones.
  */
  lemma {:induction false} FiltersPartitionIff(comments: seq<Comment>)
    ensures |Select(comments, Risk)| + |Select(comments, NoRisk)| + |Select(comments, Unknown)| <= |Select(comments, All)|
    ensures Select(comments, All) == comments
    ensures |Select(comments, Risk)| + |Select(comments, NoRisk)| + |Select(comments, Unknown)| == |comments|
       <==> forall c <- comments :: HasKnownLevel(c)
  {
    if comments != [] {
      FiltersPartitionIff(comments[1..]);
      assert (forall c <- comments :: HasKnownLevel(c))
        <==> HasKnownLevel(comments[0]) && forall c <- comments[1..] :: HasKnownLevel(c) by {
        assert comments == [comments[0]] + comments[1..];
      }
    }
  }

  /** A filter keeps exactly the matching comments. */
  lemma {:induction false} SelectIsFilter(comments: seq<Comment>, filter: RiskFilter)
    ensures forall c :: c in Select(comments, filter) <==> c in comments && Matches(c, filter)
  {
    hide Matches;
    if comments != [] {
      SelectIsFilter(comments[1..], filter);
      assert comments == [comments[0]] + comments[1..];
    }
  }

  lemma SelectStep(s: seq<Comment>, filter: RiskFilter)
    requires s != []
    ensures Select(s, filter) == (if Matches(s[0], filter) then [s[0]] else []) + Select(s[1..], filter)
  {
    hide Matches;
  }

  /** A filter keeps the frozen order: what comes from an earlier stretch comes first. */
  lemma {:induction false} SelectKeepsOrder(a: seq<Comment>, b: seq<Comment>, filter: RiskFilter)
    ensures Select(a + b, filter) == Select(a, filter) + Select(b, filter)
  {
    if a == [] {
      assert a + b == b;
    } else {
      SelectStep(a + b, filter);
      SelectStep(a, filter);
      hide Matches, Select;
      SelectKeepsOrder(a[1..], b, filter);
      assert (a + b)[1..] == a[1..] + b && (a + b)[0] == a[0];
    }
  }

  /** The receipt that a turn gets tells how many comments match, which of them it shows, and how many are left. */
  lemma ReceiptIsExact(svc: Service, reg: R.Registry, d: Delivery, completed: set<string>, turnId: string)
    requires DeliveryOk(svc, reg, d, completed) && turnId in d.pages
    ensures
      var p, all := d.pages[turnId], Matching(svc.report, d.pages[turnId].query);
      var r := ReceiptOf(svc.sessionId, turnId, p);
      && r.batchRef == BatchRef(svc.sessionId, turnId) && r.filter == p.query.filter
      && r.matched == |all| && r.returned == |p.comments|
      && r.end + r.remaining == |all|
      && (r.hasMore <==> r.remaining > 0)
      && (if r.returned == 0 then r.start == 0 else p.comments == all[r.start - 1..r.end])
  {
    assert PageOk(svc, reg, d.pages[turnId]);
  }

  // ---- one batch after the other ----

  lemma IssueKeepsRegistryOk(reg: R.Registry, scope: R.Scope, postId: string, order: R.Digest, next: nat)
    requires RegistryOk(reg) && R.Known(reg, scope)
    ensures RegistryOk(R.IssueCommentCursor(reg, scope, postId, order, next).0)
  {
    var reg' := R.IssueCommentCursor(reg, scope, postId, order, next).0;
    R.NextTokenIsNew(reg, "q", reg.commentCursors.Keys);
    assert reg'.commentCursors.Keys == reg.commentCursors.Keys + {R.NextToken(reg, "q")};
    assert forall x :: R.Known(reg, x) ==> R.Known(reg', x);
    assert R.RecordsOk(reg') && R.ByObjectOk(reg') && R.ScopesOk(reg');
    assert R.CursorsOk(reg');
  }

  lemma PageAtKeepsRegistryOk(svc: Service, reg: R.Registry, q: Query, limit: nat, offset: nat)
    requires RegistryOk(reg)
    ensures RegistryOk(PageAt(svc, reg, q, limit, offset).0)
  {
    var next := offset + |PageAt(svc, reg, q, limit, offset).1.comments|;
    if svc.sessionId in reg.scopes {
      IssueKeepsRegistryOk(reg, reg.scopes[svc.sessionId], q.postId, OrderOf(svc.report, q), next);
    }
  }

  datatype Turn = Turn(id: string, limit: nat)

  function TotalLimit(turns: seq<Turn>): nat {
    if turns == [] then 0 else turns[0].limit + TotalLimit(turns[1..])
  }

  /** The comments that a row of completed turns shows, each turn continuing where the last one stopped. */
  ghost function ShownBy(svc: Service, reg: R.Registry, d: Delivery, c: Checked, turns: seq<Turn>): seq<Comment>
    decreases |turns|
  {
    if turns == [] then []
    else
      var p := PrepareChecked(svc, reg, d, c.(limit := turns[0].limit), turns[0].id);
      if turns[0].id !in p.delivery.pages then []
      else
        p.delivery.pages[turns[0].id].comments
          + ShownBy(svc, p.reg, Acknowledged(p.delivery, turns[0].id), c.(continues := true), turns[1..])
  }

  ghost predicate NewTurns(d: Delivery, completed: set<string>, turns: seq<Turn>) {
    && (forall t <- turns :: t.id !in d.pages && t.id in completed && !IsSynthetic(t.id) && 1 <= t.limit <= BATCH_SIZE)
    && (forall i, j | 0 <= i < j < |turns| :: turns[i].id != turns[j].id)
  }

  /** The state after a turn that was prepared, completed and acknowledged. */
  ghost predicate TurnDone(svc: Service, d: Delivery, completed: set<string>, c: Checked, turnId: string,
                           reg': R.Registry, d': Delivery)
  {
    && RegistryOk(reg') && DeliveryOk(svc, reg', d', completed)
    && PostRefLive(svc, reg', c.postRef, c.query.postId)
    && d'.pages.Keys == d.pages.Keys + {turnId}
    && c.query in d'.progress
  }

  lemma TurnKeepsOk(svc: Service, reg: R.Registry, d: Delivery, completed: set<string>, c: Checked, turnId: string, p: Prepared)
    requires RegistryOk(reg) && DeliveryOk(svc, reg, d, completed) && CheckedOk(svc, reg, c)
    requires turnId !in d.pages && turnId in completed && !IsSynthetic(turnId)
    requires c.continues ==> c.query in d.progress
    requires p == PrepareChecked(svc, reg, d, c, turnId)
    ensures RegistryOk(p.reg) && DeliveryOk(svc, p.reg, Acknowledged(p.delivery, turnId), completed)
  {
    PrepareKeepsDeliveryOk(svc, reg, d, completed, c, turnId);
    PageAtKeepsRegistryOk(svc, reg, c.query, c.limit, OffsetOf(d, c));
    AcknowledgeKeepsDeliveryOk(svc, p.reg, p.delivery, completed, turnId);
  }

  lemma OneTurn(svc: Service, reg: R.Registry, d: Delivery, completed: set<string>, c: Checked, turnId: string, p: Prepared)
    requires RegistryOk(reg) && DeliveryOk(svc, reg, d, completed) && CheckedOk(svc, reg, c)
    requires turnId !in d.pages && turnId in completed && !IsSynthetic(turnId)
    requires c.continues ==> c.query in d.progress
    requires p == PrepareChecked(svc, reg, d, c, turnId)
    ensures TurnDone(svc, d, completed, c, turnId, p.reg, Acknowledged(p.delivery, turnId))
    ensures turnId in p.delivery.pages && Prepares(svc, d, c, p.delivery.pages[turnId])
    ensures Acknowledged(p.delivery, turnId).progress[c.query].end == p.delivery.pages[turnId].end
  {
    TurnKeepsOk(svc, reg, d, completed, c, turnId, p);
    PrepareStores(svc, reg, d, completed, c, turnId);
    assert PostRefLive(svc, p.reg, c.postRef, c.query.postId);
  }

  lemma SlicesJoin<T>(all: seq<T>, offset: nat, limit: nat, more: nat)
    requires offset <= |all|
    ensures
      var middle := Min(offset + limit, |all|);
      all[offset..middle] + all[middle..Min(middle + more, |all|)] == all[offset..Min(offset + limit + more, |all|)]
  {
  }

  lemma LaterTurnsAreNew(d: Delivery, d': Delivery, completed: set<string>, turns: seq<Turn>)
    requires turns != [] && NewTurns(d, completed, turns) && d'.pages.Keys == d.pages.Keys + {turns[0].id}
    ensures NewTurns(d', completed, turns[1..])
  {
    forall t | t in turns[1..] ensures t.id != turns[0].id && t in turns {
      var i :| 0 <= i < |turns[1..]| && turns[1..][i] == t;
      assert turns[i + 1] == t;
    }
  }

  lemma ShownByStep(svc: Service, reg: R.Registry, d: Delivery, c: Checked, turns: seq<Turn>, p: Prepared)
    requires turns != [] && p == PrepareChecked(svc, reg, d, c.(limit := turns[0].limit), turns[0].id)
    requires turns[0].id in p.delivery.pages
    ensures ShownBy(svc, reg, d, c, turns) ==
      p.delivery.pages[turns[0].id].comments
        + ShownBy(svc, p.reg, Acknowledged(p.delivery, turns[0].id), c.(continues := true), turns[1..])
  {
  }

  /** What the first of several turns contributes, and the state in which the others follow. */
  lemma FirstTurn(svc: Service, reg: R.Registry, d: Delivery, completed: set<string>, c: Checked, turns: seq<Turn>)
    returns (reg': R.Registry, d': Delivery, first: seq<Comment>)
    requires RegistryOk(reg) && DeliveryOk(svc, reg, d, completed)
    requires PostRefLive(svc, reg, c.postRef, c.query.postId)
    requires c.continues ==> c.query in d.progress
    requires turns != [] && NewTurns(d, completed, turns)
    ensures RegistryOk(reg') && DeliveryOk(svc, reg', d', completed)
    ensures PostRefLive(svc, reg', c.postRef, c.query.postId) && c.query in d'.progress
    ensures NewTurns(d', completed, turns[1..])
    ensures
      var all, end := Matching(svc.report, c.query), d'.progress[c.query].end;
      && OffsetOf(d, c) <= |all| && end == Min(OffsetOf(d, c) + turns[0].limit, |all|)
      && first == all[OffsetOf(d, c)..end]
      && ShownBy(svc, reg, d, c, turns) == first + ShownBy(svc, reg', d', c.(continues := true), turns[1..])
  {
    hide PrepareChecked, DeliveryOk, RegistryOk, ShownBy;
    var c1, id := c.(limit := turns[0].limit), turns[0].id;
    assert turns[0] in turns;
    var p := PrepareChecked(svc, reg, d, c1, id);
    OneTurn(svc, reg, d, completed, c1, id, p);
    reg', d', first := p.reg, Acknowledged(p.delivery, id), p.delivery.pages[id].comments;
    LaterTurnsAreNew(d, d', completed, turns);
    ShownByStep(svc, reg, d, c, turns, p);
  }

  /** Batches that follow each other, of any sizes, show one stretch of the frozen comments: no gap, no repetition. */
  lemma {:induction false} BatchesJoin(svc: Service, reg: R.Registry, d: Delivery, completed: set<string>, c: Checked, turns: seq<Turn>)
    requires RegistryOk(reg) && DeliveryOk(svc, reg, d, completed)
    requires PostRefLive(svc, reg, c.postRef, c.query.postId)
    requires c.continues ==> c.query in d.progress
    requires NewTurns(d, completed, turns)
    ensures OffsetOf(d, c) <= |Matching(svc.report, c.query)|
    ensures
      var all := Matching(svc.report, c.query);
      ShownBy(svc, reg, d, c, turns) == all[OffsetOf(d, c)..Min(OffsetOf(d, c) + TotalLimit(turns), |all|)]
    decreases |turns|
  {
    hide PrepareChecked, DeliveryOk, RegistryOk, NewTurns;
    OffsetInRange(svc, reg, d, completed, c);
    if turns != [] {
      var reg', d', first := FirstTurn(svc, reg, d, completed, c, turns);
      BatchesJoin(svc, reg', d', completed, c.(continues := true), turns[1..]);
      SlicesJoin(Matching(svc.report, c.query), OffsetOf(d, c), turns[0].limit, TotalLimit(turns[1..]));
    }
  }

  /** From `start`, enough batches show every matching comment exactly once and in the frozen order. */
  lemma BatchesShowAll(svc: Service, reg: R.Registry, d: Delivery, completed: set<string>, c: Checked, turns: seq<Turn>)
    requires RegistryOk(reg) && DeliveryOk(svc, reg, d, completed)
    requires PostRefLive(svc, reg, c.postRef, c.query.postId) && !c.continues
    requires NewTurns(d, completed, turns) && TotalLimit(turns) >= |Matching(svc.report, c.query)|
    ensures ShownBy(svc, reg, d, c, turns) == Matching(svc.report, c.query)
  {
    BatchesJoin(svc, reg, d, completed, c, turns);
  }
}
