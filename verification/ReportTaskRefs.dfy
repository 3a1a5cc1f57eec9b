/**
  The session references of one task-bound report (`report_task_refs.py`): generations of a
  session's scope, references staged in a batch and published together, and paging cursors.
*/
module ReportTaskRefs {
  import opened Wrappers
  import opened Tokens

  /** The six fields that bind a session to one frozen report. */
  datatype Binding = Binding(taskId: string, reportVersionId: string, snapshotId: string,
                             revision: string, snapshotHash: string, contentHash: string)

  datatype Scope = Scope(sessionId: string, binding: Binding, generation: nat)

  datatype Kind = Category | Finding | Post | Comment | Evidence

  datatype Origin = Origin(parentId: Option<string>, sourceTool: string, resultKind: string, contentState: string)

  datatype Record = Record(token: string, scope: Scope, kind: Kind, objectId: string, origins: seq<Origin>)

  datatype ObjectKey = ObjectKey(sessionId: string, generation: nat, kind: Kind, objectId: string)

  /** A free, hence injective, reading of the SHA-256 digests that guard cursors. */
  datatype Digest =
    | OfIds(ids: seq<string>)
    | OfFilteredIds(filter: string, filteredIds: seq<string>)
    | OfGoal(queryText: string, riskLevel: Option<string>, decision: Option<string>,
             context: Option<(Kind, string)>, requestedCount: Option<nat>)

  datatype Cursor = Cursor(token: string, scope: Scope, query: Digest, order: Digest, nextOffset: nat,
                           sourceTool: string, resultKind: string)

  datatype CommentCursor = CommentCursor(token: string, scope: Scope, postId: string, order: Digest,
                                         nextOffset: nat, sourceTool: string, resultKind: string)

  datatype Registry = Registry(nonce: string, counter: nat, scopes: map<string, Scope>,
                               records: map<string, Record>, byObject: map<ObjectKey, string>,
                               searchCursors: map<string, Cursor>,
                               commentCursors: map<string, CommentCursor>)

  datatype Batch = Batch(scope: Scope, staged: seq<Record>, committed: bool)

  function Prefix(kind: Kind): (p: string)
    ensures IsPrefix(p)
  {
    match kind
    case Category => "g"
    case Finding => "f"
    case Post => "p"
    case Comment => "c"
    case Evidence => "e"
  }

  function KeyOf(r: Record): ObjectKey {
    ObjectKey(r.scope.sessionId, r.scope.generation, r.kind, r.objectId)
  }

  // ---- the operations, as functions on the registry ----

  function Bind(reg: Registry, sessionId: string, binding: Binding, forceNewGeneration: bool): Result<Registry> {
    if sessionId == "" then Err("scope_unbound")
    else if sessionId in reg.scopes && reg.scopes[sessionId].binding == binding && !forceNewGeneration then Ok(reg)
    else
      var generation := if sessionId in reg.scopes then reg.scopes[sessionId].generation + 1 else 1;
      Ok(reg.(scopes := reg.scopes[sessionId := Scope(sessionId, binding, generation)]))
  }

  function Resolve(reg: Registry, sessionId: string, token: string, expected: Option<Kind>): Result<Record> {
    if sessionId !in reg.scopes then Err("investigation_scope_unbound")
    else if token !in reg.records then Err("unknown_ref")
    else
      var scope, r := reg.scopes[sessionId], reg.records[token];
      if r.scope.sessionId != sessionId then Err("cross_scope_ref")
      else if r.scope.generation != scope.generation || r.scope.binding.revision != scope.binding.revision
      then Err("stale_revision_ref")
      else if r.scope.binding != scope.binding then Err("cross_scope_ref")
      else if expected.Some? && r.kind != expected.value then Err("wrong_ref_type")
      else Ok(r)
  }

  function RecordForObject(reg: Registry, scope: Scope, kind: Kind, objectId: string): Option<Record> {
    var key := ObjectKey(scope.sessionId, scope.generation, kind, objectId);
    if key in reg.byObject && reg.byObject[key] in reg.records
    then Some(reg.records[reg.byObject[key]]) else None
  }

  function NextToken(reg: Registry, prefix: string): string {
    Token(prefix, reg.counter + 1, reg.nonce)
  }

  /** Insertion-ordered dictionary update: a token staged again keeps its place. */
  function Stage(staged: seq<Record>, r: Record): seq<Record> {
    if staged == [] then [r]
    else if staged[0].token == r.token then [r] + staged[1..]
    else [staged[0]] + Stage(staged[1..], r)
  }

  datatype Exposed = Exposed(reg: Registry, batch: Batch, token: string)

  function Expose(reg: Registry, batch: Batch, kind: Kind, objectId: string, origin: Origin): Exposed
    requires batch.scope.sessionId in reg.scopes
  {
    var existing := RecordForObject(reg, reg.scopes[batch.scope.sessionId], kind, objectId);
    if existing.Some? then
      var r := existing.value;
      var origins := if origin in r.origins then r.origins else r.origins + [origin];
      Exposed(reg, batch.(staged := Stage(batch.staged, r.(origins := origins))), r.token)
    else
      var token := NextToken(reg, Prefix(kind));
      Exposed(reg.(counter := reg.counter + 1),
              batch.(staged := Stage(batch.staged, Record(token, batch.scope, kind, objectId, [origin]))),
              token)
  }

  predicate Conflicts(byObject: map<ObjectKey, string>, r: Record) {
    KeyOf(r) in byObject && byObject[KeyOf(r)] != r.token
  }

  function PublishOne(reg: Registry, r: Record): Registry {
    reg.(records := reg.records[r.token := r], byObject := reg.byObject[KeyOf(r) := r.token])
  }

  /** Records go out one by one; the flag says whether the last of them was reached. */
  function Publish(reg: Registry, records: seq<Record>): (Registry, bool)
    decreases |records|
  {
    if records == [] then (reg, true)
    else if Conflicts(reg.byObject, records[0]) then (reg, false)
    else Publish(PublishOne(reg, records[0]), records[1..])
  }

  function Commit(reg: Registry, batch: Batch): (Registry, Result<Batch>) {
    if batch.committed then (reg, Ok(batch))
    else if batch.scope.sessionId !in reg.scopes || reg.scopes[batch.scope.sessionId] != batch.scope
    then (reg, Err("stale_revision_ref"))
    else
      var (reg', all) := Publish(reg, batch.staged);
      (reg', if all then Ok(batch.(committed := true)) else Err("concurrent_publication"))
  }

  function IssueSearchCursor(reg: Registry, scope: Scope, query: Digest, order: Digest, nextOffset: nat): (Registry, string) {
    var token := NextToken(reg, "r");
    (reg.(counter := reg.counter + 1,
          searchCursors := reg.searchCursors[token := Cursor(token, scope, query, order, nextOffset,
                                               "search_posts", "risk_post_candidate_directory")]),
     token)
  }

  function ResolveSearchCursor(reg: Registry, sessionId: string, token: string, query: Digest, order: Digest): Result<Cursor> {
    if sessionId !in reg.scopes then Err("investigation_scope_unbound")
    else if token !in reg.searchCursors then Err("unknown_cursor")
    else
      var scope, c := reg.scopes[sessionId], reg.searchCursors[token];
      if c.scope.sessionId != sessionId then Err("cross_scope_cursor")
      else if c.scope.generation != scope.generation || c.scope.binding.revision != scope.binding.revision
      then Err("stale_revision_cursor")
      else if c.scope.binding != scope.binding then Err("cross_scope_cursor")
      else if c.sourceTool != "search_posts" || c.resultKind != "risk_post_candidate_directory"
      then Err("invalid_cursor_source")
      else if c.query != query then Err("cursor_query_mismatch")
      else if c.order != order then Err("cursor_order_mismatch")
      else Ok(c)
  }

  function IssueCommentCursor(reg: Registry, scope: Scope, postId: string, order: Digest, nextOffset: nat): (Registry, string) {
    var token := NextToken(reg, "q");
    (reg.(counter := reg.counter + 1,
          commentCursors := reg.commentCursors[token := CommentCursor(token, scope, postId, order, nextOffset,
                                                 "list_post_risk_comments", "post_risk_comment_directory")]),
     token)
  }

  function ResolveCommentCursor(reg: Registry, sessionId: string, token: string, postId: string, order: Digest): Result<CommentCursor> {
    if sessionId !in reg.scopes then Err("investigation_scope_unbound")
    else if token !in reg.commentCursors then Err("unknown_cursor")
    else
      var scope, c := reg.scopes[sessionId], reg.commentCursors[token];
      if c.scope.sessionId != sessionId then Err("cross_scope_cursor")
      else if c.scope.generation != scope.generation || c.scope.binding.revision != scope.binding.revision
      then Err("stale_revision_cursor")
      else if c.scope.binding != scope.binding then Err("cross_scope_cursor")
      else if c.postId != postId then Err("cursor_query_mismatch")
      else if c.order != order then Err("cursor_order_mismatch")
      else if c.sourceTool != "list_post_risk_comments" || c.resultKind != "post_risk_comment_directory"
      then Err("invalid_cursor_source")
      else Ok(c)
  }

  // ---- what stays true of the registry ----

  /** A scope that the registry once handed out for its session: the current one or an older generation. */
  ghost predicate Known(reg: Registry, scope: Scope) {
    && scope.sessionId in reg.scopes
    && scope.generation <= reg.scopes[scope.sessionId].generation
    && (scope.generation == reg.scopes[scope.sessionId].generation ==> scope == reg.scopes[scope.sessionId])
  }

  ghost predicate ScopesOk(reg: Registry) {
    forall s <- reg.scopes :: reg.scopes[s].sessionId == s && reg.scopes[s].generation >= 1
  }

  ghost predicate RecordsOk(reg: Registry) {
    forall t <- reg.records :: reg.records[t].token == t && Known(reg, reg.records[t].scope)
  }

  /** Every object key leads to a record of exactly that session, generation, kind and object. */
  ghost predicate ByObjectOk(reg: Registry) {
    forall k <- reg.byObject :: reg.byObject[k] in reg.records && KeyOf(reg.records[reg.byObject[k]]) == k
  }

  ghost predicate CursorsOk(reg: Registry) {
    && (forall t <- reg.searchCursors :: reg.searchCursors[t].token == t && Known(reg, reg.searchCursors[t].scope))
    && (forall t <- reg.commentCursors :: reg.commentCursors[t].token == t && Known(reg, reg.commentCursors[t].scope))
  }

  ghost predicate Valid(reg: Registry) {
    ScopesOk(reg) && RecordsOk(reg) && ByObjectOk(reg) && CursorsOk(reg)
  }

  /** No two tokens name one object: what holds as long as no legacy alias was adopted. */
  ghost predicate OneTokenPerObject(reg: Registry) {
    forall t <- reg.records :: KeyOf(reg.records[t]) in reg.byObject && reg.byObject[KeyOf(reg.records[t])] == t
  }

  /** None of these tokens is one that a registry with this counter could still allocate, under any nonce. */
  ghost predicate Spent(counter: nat, tokens: set<string>) {
    forall p, n: nat, x {:trigger Token(p, n, x)} :: IsPrefix(p) && Token(p, n, x) in tokens ==> n <= counter
  }

  lemma NextTokenIsNew(reg: Registry, prefix: string, tokens: set<string>)
    requires IsPrefix(prefix) && Spent(reg.counter, tokens)
    ensures NextToken(reg, prefix) !in tokens
    ensures Spent(reg.counter + 1, tokens + {NextToken(reg, prefix)})
  {
    forall p, n: nat, x | IsPrefix(p) && Token(p, n, x) in tokens + {NextToken(reg, prefix)}
      ensures n <= reg.counter + 1
    {
      if Token(p, n, x) == NextToken(reg, prefix) {
        TokenInjective(p, n, x, prefix, reg.counter + 1, reg.nonce);
      }
    }
  }

  lemma StageContents(staged: seq<Record>, r: Record)
    ensures r in Stage(staged, r)
    ensures forall x <- Stage(staged, r) :: x == r || x in staged
  {
  }

  /** A resolved reference was issued under the session's current scope, to that session, of that kind. */
  lemma ResolvedIsCurrent(reg: Registry, sessionId: string, token: string, expected: Option<Kind>)
    requires Valid(reg)
    ensures Resolve(reg, sessionId, token, expected).Ok? <==>
      && sessionId in reg.scopes
      && token in reg.records
      && reg.records[token].scope == reg.scopes[sessionId]
      && (expected.Some? ==> reg.records[token].kind == expected.value)
    ensures Resolve(reg, sessionId, token, expected).Ok? ==>
      Resolve(reg, sessionId, token, expected).value == reg.records[token]
  {
  }

  // ---- publication ----

  /** What a later `_commit` cannot trip over: the keys are free or already lead to these very tokens. */
  ghost predicate Publishable(byObject: map<ObjectKey, string>, records: seq<Record>) {
    && (forall r <- records :: !Conflicts(byObject, r))
    && (forall i, j | 0 <= i < j < |records| && KeyOf(records[i]) == KeyOf(records[j]) ::
          records[i].token == records[j].token)
  }

  /** `_commit` reaches its end exactly when no record meets another token under its key. */
  lemma {:induction false} PublishSucceedsIff(reg: Registry, records: seq<Record>)
    ensures Publish(reg, records).1 <==> Publishable(reg.byObject, records)
    decreases |records|
  {
    if records != [] && !Conflicts(reg.byObject, records[0]) {
      var head, tail, reg' := records[0], records[1..], PublishOne(reg, records[0]);
      PublishSucceedsIff(reg', tail);
      if Publishable(reg'.byObject, tail) {
        forall i, j | 0 <= i < j < |records| && KeyOf(records[i]) == KeyOf(records[j])
          ensures records[i].token == records[j].token
        {
          assert records[j] == tail[j - 1];
          if i == 0 {
            assert !Conflicts(reg'.byObject, tail[j - 1]);
          } else {
            assert records[i] == tail[i - 1];
          }
        }
        forall r | r in records ensures !Conflicts(reg.byObject, r) {
          if r != head {
            assert r in tail;
            assert !Conflicts(reg'.byObject, r);
          }
        }
      }
      if Publishable(reg.byObject, records) {
        forall r | r in tail ensures !Conflicts(reg'.byObject, r) {
          var j :| 0 <= j < |tail| && tail[j] == r;
          assert records[j + 1] == r && r in records;
          assert KeyOf(records[0]) == KeyOf(records[j + 1]) ==> head.token == r.token;
        }
        forall i, j | 0 <= i < j < |tail| && KeyOf(tail[i]) == KeyOf(tail[j])
          ensures tail[i].token == tail[j].token
        {
          assert records[i + 1] == tail[i] && records[j + 1] == tail[j];
        }
      }
    }
  }

  // ---- concurrent batches over one registry ----

  datatype TokenIdentity = TokenIdentity(scope: Scope, kind: Kind, objectId: string)

  function IdentityOf(r: Record): TokenIdentity {
    TokenIdentity(r.scope, r.kind, r.objectId)
  }

  /** The registry, the batches that are open, and what every token was minted for. */
  datatype System = System(reg: Registry, batches: map<nat, Batch>, minted: map<string, TokenIdentity>)

  datatype Step =
    | BindSession(sessionId: string, binding: Binding, forceNewGeneration: bool)
    | OpenBatch(id: nat, sessionId: string)
    | ExposeObject(id: nat, kind: Kind, objectId: string, origin: Origin)
    | CommitBatch(id: nat)
    | IssueSearch(sessionId: string, query: Digest, order: Digest, nextOffset: nat)
    | IssueComments(sessionId: string, postId: string, order: Digest, nextOffset: nat)

  function Next(s: System, step: Step): System {
    match step
    case BindSession(sessionId, binding, force) =>
      var bound := Bind(s.reg, sessionId, binding, force);
      if bound.Ok? then s.(reg := bound.value) else s
    case OpenBatch(id, sessionId) =>
      if sessionId in s.reg.scopes && id !in s.batches
      then s.(batches := s.batches[id := Batch(s.reg.scopes[sessionId], [], false)]) else s
    case ExposeObject(id, kind, objectId, origin) =>
      if id in s.batches && !s.batches[id].committed && s.batches[id].scope.sessionId in s.reg.scopes then
        var b := s.batches[id];
        var e := Expose(s.reg, b, kind, objectId, origin);
        System(e.reg, s.batches[id := e.batch],
               if e.reg == s.reg then s.minted else s.minted[e.token := TokenIdentity(b.scope, kind, objectId)])
      else s
    case CommitBatch(id) =>
      if id in s.batches then
        var (reg, outcome) := Commit(s.reg, s.batches[id]);
        s.(reg := reg, batches := s.batches[id := if outcome.Ok? then outcome.value else s.batches[id]])
      else s
    case IssueSearch(sessionId, query, order, nextOffset) =>
      if sessionId in s.reg.scopes
      then s.(reg := IssueSearchCursor(s.reg, s.reg.scopes[sessionId], query, order, nextOffset).0) else s
    case IssueComments(sessionId, postId, order, nextOffset) =>
      if sessionId in s.reg.scopes
      then s.(reg := IssueCommentCursor(s.reg, s.reg.scopes[sessionId], postId, order, nextOffset).0) else s
  }

  function Run(s: System, steps: seq<Step>): System
    decreases |steps|
  {
    if steps == [] then s else Run(Next(s, steps[0]), steps[1..])
  }

  function EmptyRegistry(nonce: string): Registry {
    Registry(nonce, 0, map[], map[], map[], map[], map[])
  }

  ghost predicate Minted(minted: map<string, TokenIdentity>, r: Record) {
    r.token in minted && minted[r.token] == IdentityOf(r)
  }

  ghost predicate AllMinted(reg: Registry, batches: map<nat, Batch>, minted: map<string, TokenIdentity>) {
    && (forall t <- reg.records :: Minted(minted, reg.records[t]))
    && (forall id <- batches :: Known(reg, batches[id].scope) && forall r <- batches[id].staged :: Minted(minted, r))
  }

  function UsedTokens(reg: Registry, minted: map<string, TokenIdentity>): set<string> {
    minted.Keys + reg.searchCursors.Keys + reg.commentCursors.Keys
  }

  ghost predicate Inv(s: System) {
    && Valid(s.reg)
    && OneTokenPerObject(s.reg)
    && AllMinted(s.reg, s.batches, s.minted)
    && (forall t <- s.minted :: Known(s.reg, s.minted[t].scope))
    && Spent(s.reg.counter, UsedTokens(s.reg, s.minted))
  }

  /** What no later step may take back. */
  ghost predicate Grows(a: Registry, b: Registry) {
    && (forall t <- a.records :: t in b.records && IdentityOf(b.records[t]) == IdentityOf(a.records[t]))
    && (forall k <- a.byObject :: k in b.byObject && b.byObject[k] == a.byObject[k])
    && (forall t <- a.searchCursors :: t in b.searchCursors && b.searchCursors[t] == a.searchCursors[t])
    && (forall t <- a.commentCursors :: t in b.commentCursors && b.commentCursors[t] == a.commentCursors[t])
    && (forall x <- a.scopes :: x in b.scopes && a.scopes[x].generation <= b.scopes[x].generation)
    && a.counter <= b.counter
  }

  lemma GrowsFromItself(reg: Registry)
    ensures Grows(reg, reg)
  {
  }

  lemma GrowsTransitive(a: Registry, b: Registry, c: Registry)
    requires Grows(a, b) && Grows(b, c)
    ensures Grows(a, c)
  {
  }

  lemma StageExistingKeepsInv(s: System, id: nat, r: Record, origins: seq<Origin>)
    requires Inv(s) && id in s.batches && Minted(s.minted, r)
    ensures
      var staged := Stage(s.batches[id].staged, r.(origins := origins));
      Inv(s.(batches := s.batches[id := s.batches[id].(staged := staged)]))
  {
    StageContents(s.batches[id].staged, r.(origins := origins));
    var staged := Stage(s.batches[id].staged, r.(origins := origins));
    assert AllMinted(s.reg, s.batches[id := s.batches[id].(staged := staged)], s.minted);
  }

  lemma StageNewKeepsInv(s: System, id: nat, kind: Kind, objectId: string, origins: seq<Origin>)
    requires Inv(s) && id in s.batches
    ensures
      var scope, token := s.batches[id].scope, NextToken(s.reg, Prefix(kind));
      var staged := Stage(s.batches[id].staged, Record(token, scope, kind, objectId, origins));
      Inv(System(s.reg.(counter := s.reg.counter + 1),
                 s.batches[id := s.batches[id].(staged := staged)],
                 s.minted[token := TokenIdentity(scope, kind, objectId)]))
  {
    var b, token := s.batches[id], NextToken(s.reg, Prefix(kind));
    var r := Record(token, b.scope, kind, objectId, origins);
    var reg' := s.reg.(counter := s.reg.counter + 1);
    var batches' := s.batches[id := b.(staged := Stage(b.staged, r))];
    var minted' := s.minted[token := IdentityOf(r)];
    NextTokenIsNew(s.reg, Prefix(kind), UsedTokens(s.reg, s.minted));
    StageContents(b.staged, r);
    assert UsedTokens(reg', minted') == UsedTokens(s.reg, s.minted) + {token};
    assert forall scope :: Known(s.reg, scope) ==> Known(reg', scope);
    assert Known(s.reg, b.scope);
    assert AllMinted(reg', batches', minted');
    assert Valid(reg') && OneTokenPerObject(reg');
  }

  lemma ExposeKeepsInv(s: System, step: Step)
    requires Inv(s) && step.ExposeObject?
    ensures Inv(Next(s, step)) && Grows(s.reg, Next(s, step).reg)
  {
    if step.id in s.batches && !s.batches[step.id].committed && s.batches[step.id].scope.sessionId in s.reg.scopes {
      var b := s.batches[step.id];
      var existing := RecordForObject(s.reg, s.reg.scopes[b.scope.sessionId], step.kind, step.objectId);
      if existing.Some? {
        var r := existing.value;
        var origins := if step.origin in r.origins then r.origins else r.origins + [step.origin];
        assert Minted(s.minted, r);
        StageExistingKeepsInv(s, step.id, r, origins);
        assert Next(s, step) == s.(batches :=
          s.batches[step.id := b.(staged := Stage(b.staged, r.(origins := origins)))]);
      } else {
        StageNewKeepsInv(s, step.id, step.kind, step.objectId, [step.origin]);
        assert Next(s, step).reg == s.reg.(counter := s.reg.counter + 1);
      }
    }
  }

  lemma PublishOneKeepsValid(reg: Registry, r: Record)
    requires Valid(reg) && Known(reg, r.scope) && !Conflicts(reg.byObject, r)
    requires r.token in reg.records ==> IdentityOf(reg.records[r.token]) == IdentityOf(r)
    ensures Valid(PublishOne(reg, r))
    ensures OneTokenPerObject(reg) ==> OneTokenPerObject(PublishOne(reg, r))
  {
    var reg' := PublishOne(reg, r);
    assert forall scope :: Known(reg, scope) ==> Known(reg', scope);
    assert RecordsOk(reg') && ByObjectOk(reg') && CursorsOk(reg');
  }

  lemma PublishOneGrows(reg: Registry, r: Record)
    requires !Conflicts(reg.byObject, r)
    requires r.token in reg.records ==> IdentityOf(reg.records[r.token]) == IdentityOf(r)
    ensures Grows(reg, PublishOne(reg, r))
  {
  }

  lemma PublishOneKeepsInv(s: System, r: Record)
    requires Inv(s) && Minted(s.minted, r) && !Conflicts(s.reg.byObject, r)
    ensures Inv(s.(reg := PublishOne(s.reg, r)))
    ensures Grows(s.reg, PublishOne(s.reg, r))
  {
    var reg' := PublishOne(s.reg, r);
    if r.token in s.reg.records {
      assert Minted(s.minted, s.reg.records[r.token]);
    }
    PublishOneKeepsValid(s.reg, r);
    PublishOneGrows(s.reg, r);
    PublishOneKeepsMinted(s, r);
    assert UsedTokens(reg', s.minted) == UsedTokens(s.reg, s.minted);
    hide Valid, OneTokenPerObject, Grows, Spent, AllMinted;
  }

  lemma PublishOneKeepsMinted(s: System, r: Record)
    requires AllMinted(s.reg, s.batches, s.minted) && Minted(s.minted, r)
    ensures AllMinted(PublishOne(s.reg, r), s.batches, s.minted)
    ensures forall scope :: Known(s.reg, scope) ==> Known(PublishOne(s.reg, r), scope)
  {
    hide IdentityOf;
    assert forall scope :: Known(s.reg, scope) ==> Known(PublishOne(s.reg, r), scope);
  }

  lemma {:induction false} PublishKeepsInv(s: System, records: seq<Record>)
    requires Inv(s)
    requires forall r <- records :: Minted(s.minted, r)
    ensures Inv(s.(reg := Publish(s.reg, records).0))
    ensures Grows(s.reg, Publish(s.reg, records).0)
    ensures Publish(s.reg, records).0.scopes == s.reg.scopes
    decreases |records|
  {
    if records != [] && !Conflicts(s.reg.byObject, records[0]) {
      var r := records[0];
      assert Minted(s.minted, r);
      PublishOneKeepsInv(s, r);
      assert forall x <- records[1..] :: x in records;
      PublishKeepsInv(s.(reg := PublishOne(s.reg, r)), records[1..]);
    }
  }

  lemma SearchCursorKeepsInv(s: System, scope: Scope, query: Digest, order: Digest, nextOffset: nat)
    requires Inv(s) && Known(s.reg, scope)
    ensures
      var s' := s.(reg := IssueSearchCursor(s.reg, scope, query, order, nextOffset).0);
      Inv(s') && Grows(s.reg, s'.reg)
  {
    var reg' := IssueSearchCursor(s.reg, scope, query, order, nextOffset).0;
    NextTokenIsNew(s.reg, "r", UsedTokens(s.reg, s.minted));
    assert UsedTokens(reg', s.minted) == UsedTokens(s.reg, s.minted) + {NextToken(s.reg, "r")};
    assert forall x :: Known(s.reg, x) ==> Known(reg', x);
    assert Valid(reg') && OneTokenPerObject(reg');
  }

  lemma CommentCursorKeepsInv(s: System, scope: Scope, postId: string, order: Digest, nextOffset: nat)
    requires Inv(s) && Known(s.reg, scope)
    ensures
      var s' := s.(reg := IssueCommentCursor(s.reg, scope, postId, order, nextOffset).0);
      Inv(s') && Grows(s.reg, s'.reg)
  {
    var reg' := IssueCommentCursor(s.reg, scope, postId, order, nextOffset).0;
    NextTokenIsNew(s.reg, "q", UsedTokens(s.reg, s.minted));
    assert UsedTokens(reg', s.minted) == UsedTokens(s.reg, s.minted) + {NextToken(s.reg, "q")};
    assert forall x :: Known(s.reg, x) ==> Known(reg', x);
    assert Valid(reg') && OneTokenPerObject(reg');
  }

  lemma BindKeepsKnown(reg: Registry, sessionId: string, binding: Binding, force: bool)
    requires ScopesOk(reg) && Bind(reg, sessionId, binding, force).Ok?
    ensures
      var reg' := Bind(reg, sessionId, binding, force).value;
      && reg' == reg.(scopes := reg'.scopes) && ScopesOk(reg')
      && (forall x :: Known(reg, x) ==> Known(reg', x))
      && (forall x <- reg.scopes :: x in reg'.scopes && reg.scopes[x].generation <= reg'.scopes[x].generation)
  {
  }

  lemma BindKeepsInv(s: System, sessionId: string, binding: Binding, force: bool)
    requires Inv(s) && Bind(s.reg, sessionId, binding, force).Ok?
    ensures
      var s' := s.(reg := Bind(s.reg, sessionId, binding, force).value);
      Inv(s') && Grows(s.reg, s'.reg)
  {
    var reg' := Bind(s.reg, sessionId, binding, force).value;
    BindKeepsKnown(s.reg, sessionId, binding, force);
    hide Known, Bind;
    assert RecordsOk(reg') && ByObjectOk(reg') && CursorsOk(reg') && OneTokenPerObject(reg');
    assert AllMinted(reg', s.batches, s.minted);
    assert UsedTokens(reg', s.minted) == UsedTokens(s.reg, s.minted);
  }

  lemma CommitKeepsInv(s: System, id: nat)
    requires Inv(s) && id in s.batches
    ensures Inv(Next(s, CommitBatch(id))) && Grows(s.reg, Next(s, CommitBatch(id)).reg)
  {
    var b := s.batches[id];
    var s1 := s.(reg := Commit(s.reg, b).0);
    PublishKeepsInv(s, b.staged);
    GrowsFromItself(s.reg);
    assert Inv(s1) && Grows(s.reg, s1.reg) by {
      hide Inv, Grows;
    }
    MarkedKeepsInv(s1, id, true);
    MarkedKeepsInv(s1, id, b.committed);
    hide Inv, Grows, Publish;
    assert Next(s, CommitBatch(id)) == s1.(batches := s1.batches[id := b.(committed := true)])
        || Next(s, CommitBatch(id)) == s1.(batches := s1.batches[id := b]);
  }

  lemma MarkedKeepsInv(s: System, id: nat, committed: bool)
    requires Inv(s) && id in s.batches
    ensures Inv(s.(batches := s.batches[id := s.batches[id].(committed := committed)]))
  {
    hide Valid, OneTokenPerObject, Known, Spent;
  }

  lemma OpenKeepsInv(s: System, id: nat, sessionId: string)
    requires Inv(s) && sessionId in s.reg.scopes && id !in s.batches
    ensures Inv(s.(batches := s.batches[id := Batch(s.reg.scopes[sessionId], [], false)]))
  {
    CurrentIsKnown(s, sessionId);
    hide Known, Valid, OneTokenPerObject, Spent;
  }

  lemma CurrentIsKnown(s: System, sessionId: string)
    requires Inv(s) && sessionId in s.reg.scopes
    ensures Known(s.reg, s.reg.scopes[sessionId])
  {
  }

  lemma NextKeepsInv(s: System, step: Step)
    requires Inv(s)
    ensures Inv(Next(s, step)) && Grows(s.reg, Next(s, step).reg)
  {
    hide Inv, Grows, Expose, Commit, IssueSearchCursor, IssueCommentCursor, Bind;
    GrowsFromItself(s.reg);
    match step
    case BindSession(sessionId, binding, force) =>
      if Bind(s.reg, sessionId, binding, force).Ok? {
        BindKeepsInv(s, sessionId, binding, force);
      }
    case OpenBatch(id, sessionId) =>
      if sessionId in s.reg.scopes && id !in s.batches {
        OpenKeepsInv(s, id, sessionId);
      }
    case ExposeObject(_, _, _, _) => ExposeKeepsInv(s, step);
    case CommitBatch(id) =>
      if id in s.batches {
        CommitKeepsInv(s, id);
      }
    case IssueSearch(sessionId, query, order, nextOffset) =>
      if sessionId in s.reg.scopes {
        CurrentIsKnown(s, sessionId);
        SearchCursorKeepsInv(s, s.reg.scopes[sessionId], query, order, nextOffset);
      }
    case IssueComments(sessionId, postId, order, nextOffset) =>
      if sessionId in s.reg.scopes {
        CurrentIsKnown(s, sessionId);
        CommentCursorKeepsInv(s, s.reg.scopes[sessionId], postId, order, nextOffset);
      }
  }

  lemma {:induction false} PublishKeepsScopes(reg: Registry, records: seq<Record>)
    ensures Publish(reg, records).0.scopes == reg.scopes
    decreases |records|
  {
    if records != [] && !Conflicts(reg.byObject, records[0]) {
      PublishKeepsScopes(PublishOne(reg, records[0]), records[1..]);
    }
  }

  /** Only a bind changes a scope. */
  lemma NextKeepsScopes(s: System, step: Step)
    requires !step.BindSession?
    ensures Next(s, step).reg.scopes == s.reg.scopes
  {
    if step.CommitBatch? && step.id in s.batches {
      PublishKeepsScopes(s.reg, s.batches[step.id].staged);
    }
  }

  /**
    Whatever sessions bind, whatever batches interleave and wherever a commit breaks off: the
    invariant holds, published references keep scope, kind and object, an object keeps its
    token, cursors keep everything and generations only go up.
  */
  lemma {:induction false} RunKeepsInv(s: System, steps: seq<Step>)
    requires Inv(s)
    ensures Inv(Run(s, steps)) && Grows(s.reg, Run(s, steps).reg)
    decreases |steps|
  {
    if steps != [] {
      NextKeepsInv(s, steps[0]);
      RunKeepsInv(Next(s, steps[0]), steps[1..]);
    }
  }

  /** The registry invariant of every state that a fresh registry can reach. */
  lemma ReachableRegistryIsValid(nonce: string, steps: seq<Step>)
    ensures
      var reg := Run(System(EmptyRegistry(nonce), map[], map[]), steps).reg;
      Valid(reg) && OneTokenPerObject(reg)
  {
    RunKeepsInv(System(EmptyRegistry(nonce), map[], map[]), steps);
  }

  /** A reference that resolves keeps resolving to the same kind and object until the session gets a new scope. */
  lemma ReferencesLast(s: System, steps: seq<Step>, sessionId: string, token: string, expected: Option<Kind>)
    requires Inv(s) && Resolve(s.reg, sessionId, token, expected).Ok?
    ensures
      var r, reg' := Resolve(s.reg, sessionId, token, expected).value, Run(s, steps).reg;
      var now := Resolve(reg', sessionId, token, expected);
      sessionId in reg'.scopes &&
      if reg'.scopes[sessionId] == s.reg.scopes[sessionId]
      then now.Ok? && IdentityOf(now.value) == IdentityOf(r) && now.value.token == token
      else now.Err? && reg'.scopes[sessionId].generation > s.reg.scopes[sessionId].generation
  {
    RunKeepsInv(s, steps);
    ResolvedIsCurrent(s.reg, sessionId, token, expected);
    ResolvedIsCurrent(Run(s, steps).reg, sessionId, token, expected);
    assert Known(Run(s, steps).reg, s.reg.records[token].scope);
  }

  /** A reference of an older generation never resolves again. */
  lemma StaleForever(s: System, steps: seq<Step>, sessionId: string, token: string, expected: Option<Kind>)
    requires Inv(s) && sessionId in s.reg.scopes && token in s.reg.records
    requires s.reg.records[token].scope.generation < s.reg.scopes[sessionId].generation
    ensures Resolve(Run(s, steps).reg, sessionId, token, expected).Err?
  {
    RunKeepsInv(s, steps);
    ResolvedIsCurrent(Run(s, steps).reg, sessionId, token, expected);
  }

  // ---- the objects ----

  class ReferenceRegistry {
    var nonce: string
    var counter: nat
    var scopes: map<string, Scope>
    var records: map<string, Record>
    var byObject: map<ObjectKey, string>
    var searchCursors: map<string, Cursor>
    var commentCursors: map<string, CommentCursor>

    function View(): Registry
      reads this
    {
      Registry(nonce, counter, scopes, records, byObject, searchCursors, commentCursors)
    }

    constructor (nonce: string)
      ensures View() == EmptyRegistry(nonce)
    {
      this.nonce, counter := nonce, 0;
      scopes, records, byObject, searchCursors, commentCursors := map[], map[], map[], map[], map[];
    }

    method BindScope(sessionId: string, binding: Binding, forceNewGeneration: bool) returns (bound: Result<Scope>)
      modifies this
      ensures
        var spec := Bind(old(View()), sessionId, binding, forceNewGeneration);
        && View() == (if spec.Ok? then spec.value else old(View()))
        && bound == (if spec.Ok? then Ok(View().scopes[sessionId]) else Err(spec.code))
    {
      if sessionId == "" {
        return Err("scope_unbound");
      }
      var generation := 1;
      if sessionId in scopes {
        if scopes[sessionId].binding == binding && !forceNewGeneration {
          return Ok(scopes[sessionId]);
        }
        generation := scopes[sessionId].generation + 1;
      }
      scopes := scopes[sessionId := Scope(sessionId, binding, generation)];
      return Ok(scopes[sessionId]);
    }

    method Allocate(prefix: string) returns (token: string)
      modifies this`counter
      ensures token == NextToken(old(View()), prefix) && counter == old(counter) + 1
    {
      counter := counter + 1;
      token := Token(prefix, counter, nonce);
    }

    method IssueSearch(scope: Scope, query: Digest, order: Digest, nextOffset: nat) returns (token: string)
      modifies this
      ensures (View(), token) == IssueSearchCursor(old(View()), scope, query, order, nextOffset)
    {
      token := Allocate("r");
      searchCursors := searchCursors[token := Cursor(token, scope, query, order, nextOffset,
                                       "search_posts", "risk_post_candidate_directory")];
    }

    method IssueComments(scope: Scope, postId: string, order: Digest, nextOffset: nat) returns (token: string)
      modifies this
      ensures (View(), token) == IssueCommentCursor(old(View()), scope, postId, order, nextOffset)
    {
      token := Allocate("q");
      commentCursors := commentCursors[token := CommentCursor(token, scope, postId, order, nextOffset,
                                         "list_post_risk_comments", "post_risk_comment_directory")];
    }

    /** `_commit`: publishes in order and stops at the first conflict, leaving what went before in place. */
    method CommitRecords(scope: Scope, staged: seq<Record>) returns (outcome: Result<()>)
      modifies this
      ensures
        var (reg, spec) := Commit(old(View()), Batch(scope, staged, false));
        View() == reg && outcome == (if spec.Ok? then Ok(()) else Err(spec.code))
    {
      if scope.sessionId !in scopes || scopes[scope.sessionId] != scope {
        return Err("stale_revision_ref");
      }
      for i := 0 to |staged|
        invariant Publish(View(), staged[i..]) == Publish(old(View()), staged)
        invariant scopes == old(scopes)
      {
        var r := staged[i];
        assert staged[i..][1..] == staged[i + 1..];
        var key := KeyOf(r);
        if key in byObject && byObject[key] != r.token {
          return Err("concurrent_publication");
        }
        records := records[r.token := r];
        byObject := byObject[key := r.token];
      }
      return Ok(());
    }
  }

  class ReferenceBatch {
    const registry: ReferenceRegistry
    const scope: Scope
    var staged: seq<Record>
    var committed: bool

    function View(): Batch
      reads this
    {
      Batch(scope, staged, committed)
    }

    constructor (registry: ReferenceRegistry, scope: Scope)
      ensures this.registry == registry && View() == Batch(scope, [], false)
    {
      this.registry, this.scope := registry, scope;
      staged, committed := [], false;
    }

    method ExposeObject(kind: Kind, objectId: string, origin: Origin) returns (token: string)
      requires !committed && scope.sessionId in registry.scopes
      modifies this, registry
      ensures Exposed(registry.View(), View(), token) ==
              Expose(old(registry.View()), old(View()), kind, objectId, origin)
    {
      var existing := RecordForObject(registry.View(), registry.scopes[scope.sessionId], kind, objectId);
      if existing.Some? {
        var r := existing.value;
        var origins := r.origins;
        if origin !in origins {
          origins := origins + [origin];
        }
        staged := Stage(staged, r.(origins := origins));
        return r.token;
      }
      token := registry.Allocate(Prefix(kind));
      staged := Stage(staged, Record(token, scope, kind, objectId, [origin]));
    }

    method CommitOnce() returns (outcome: Result<()>)
      modifies this, registry
      ensures
        var (reg, spec) := Commit(old(registry.View()), old(View()));
        && registry.View() == reg
        && View() == (if spec.Ok? then spec.value else old(View()))
        && outcome == (if spec.Ok? then Ok(()) else Err(spec.code))
    {
      if committed {
        return Ok(());
      }
      outcome := registry.CommitRecords(scope, staged);
      committed := outcome.Ok?;
    }
  }
}
