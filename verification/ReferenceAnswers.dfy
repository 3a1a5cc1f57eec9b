/** What the registry of session references answers, case by case: binding, resolving, staging and publishing. */
module ReferenceAnswers {
  import opened Wrappers
  import opened Tokens
  import opened ReportTaskRefs

  // ---- binding ----

  /** The scope stays exactly if the binding is the same and no new generation is forced; else the next generation opens. */
  lemma BindTells(reg: Registry, sessionId: string, binding: Binding, forceNewGeneration: bool)
    ensures
      var bound := Bind(reg, sessionId, binding, forceNewGeneration);
      && (bound.Ok? <==> sessionId != "")
      && (bound.Ok? ==>
            && sessionId in bound.value.scopes && bound.value == reg.(scopes := reg.scopes[sessionId := bound.value.scopes[sessionId]])
            && var scope := bound.value.scopes[sessionId];
            && scope.binding == binding
            && (sessionId !in reg.scopes ==> scope.generation == 1 && scope.sessionId == sessionId)
            && (sessionId in reg.scopes && reg.scopes[sessionId].binding == binding && !forceNewGeneration ==>
                  scope == reg.scopes[sessionId])
            && (sessionId in reg.scopes && (reg.scopes[sessionId].binding != binding || forceNewGeneration) ==>
                  scope.generation == reg.scopes[sessionId].generation + 1 && scope.sessionId == sessionId))
  {
    if sessionId != "" && sessionId in reg.scopes && reg.scopes[sessionId].binding == binding && !forceNewGeneration {
      assert reg.scopes[sessionId := reg.scopes[sessionId]] == reg.scopes;
    }
  }

  /** A forced bind ends every reference of its session for ever, and no reference of any other. */
  lemma ForcedBindEndsReferences(s: System, sessionId: string, binding: Binding, more: seq<Step>, token: string, expected: Option<Kind>)
    requires Inv(s) && sessionId != "" && token in s.reg.records
    ensures
      var forced := Next(s, BindSession(sessionId, binding, true));
      && Resolve(Run(forced, more).reg, sessionId, token, expected).Err?
      && forall other | other != sessionId :: Resolve(forced.reg, other, token, expected) == Resolve(s.reg, other, token, expected)
  {
    hide Resolve, Run, Inv, Next, Known;
    var forced := Next(s, BindSession(sessionId, binding, true));
    NextKeepsInv(s, BindSession(sessionId, binding, true));
    RunKeepsInv(forced, more);
    ForcedIsNewer(s, sessionId, binding, token);
    forall other | other != sessionId ensures Resolve(forced.reg, other, token, expected) == Resolve(s.reg, other, token, expected) {
      OthersResolveAlike(s, sessionId, binding, other, token, expected);
    }
    if s.reg.records[token].scope.sessionId == sessionId {
      StaleForever(forced, more, sessionId, token, expected);
    } else {
      ForeignNeverResolves(forced, Run(forced, more), sessionId, token, expected);
    }
  }

  lemma ForcedIsNewer(s: System, sessionId: string, binding: Binding, token: string)
    requires Inv(s) && sessionId != "" && token in s.reg.records
    ensures
      var forced := Next(s, BindSession(sessionId, binding, true));
      && forced.reg.records == s.reg.records && sessionId in forced.reg.scopes
      && (s.reg.records[token].scope.sessionId == sessionId ==>
            s.reg.records[token].scope.generation < forced.reg.scopes[sessionId].generation)
  {
    assert Known(s.reg, s.reg.records[token].scope);
  }

  lemma OthersResolveAlike(s: System, sessionId: string, binding: Binding, other: string, token: string, expected: Option<Kind>)
    requires other != sessionId
    ensures Resolve(Next(s, BindSession(sessionId, binding, true)).reg, other, token, expected) == Resolve(s.reg, other, token, expected)
  {
  }

  lemma ForeignNeverResolves(s: System, later: System, sessionId: string, token: string, expected: Option<Kind>)
    requires Inv(later) && Grows(s.reg, later.reg)
    requires token in s.reg.records && s.reg.records[token].scope.sessionId != sessionId
    ensures Resolve(later.reg, sessionId, token, expected).Err?
  {
    assert IdentityOf(later.reg.records[token]) == IdentityOf(s.reg.records[token]);
  }

  // ---- resolving ----

  /** The answer to a reference, over any valid registry: the first thing that is wrong with it. */
  lemma ResolveTells(reg: Registry, sessionId: string, token: string, expected: Option<Kind>)
    requires Valid(reg)
    ensures
      var answer := Resolve(reg, sessionId, token, expected);
      if sessionId !in reg.scopes then answer == Err("investigation_scope_unbound")
      else if token !in reg.records then answer == Err("unknown_ref")
      else
        var r := reg.records[token];
        && (r.scope.sessionId != sessionId ==> answer == Err("cross_scope_ref"))
        && (r.scope.sessionId == sessionId && r.scope.generation < reg.scopes[sessionId].generation ==> answer == Err("stale_revision_ref"))
        && (r.scope == reg.scopes[sessionId] && expected.Some? && expected.value != r.kind ==> answer == Err("wrong_ref_type"))
        && (r.scope == reg.scopes[sessionId] && (expected.None? || expected.value == r.kind) ==> answer == Ok(r))
        && (r.scope.sessionId != sessionId || r.scope.generation < reg.scopes[sessionId].generation || r.scope == reg.scopes[sessionId])
  {
    if sessionId in reg.scopes && token in reg.records {
      assert Known(reg, reg.records[token].scope);
    }
  }

  /** A cursor of this scope that a search issued. */
  ghost predicate IssuedBySearch(c: Cursor) {
    c.sourceTool == "search_posts" && c.resultKind == "risk_post_candidate_directory"
  }

  ghost predicate IssuedByComments(c: CommentCursor) {
    c.sourceTool == "list_post_risk_comments" && c.resultKind == "post_risk_comment_directory"
  }

  /** A search cursor is followed exactly by its own session, in its generation, for its query over the same candidates. */
  lemma SearchCursorTells(reg: Registry, sessionId: string, token: string, query: Digest, order: Digest)
    requires Valid(reg)
    ensures
      var answer := ResolveSearchCursor(reg, sessionId, token, query, order);
      if sessionId !in reg.scopes then answer == Err("investigation_scope_unbound")
      else if token !in reg.searchCursors then answer == Err("unknown_cursor")
      else
        var c := reg.searchCursors[token];
        && (c.scope.sessionId != sessionId ==> answer == Err("cross_scope_cursor"))
        && (c.scope.sessionId == sessionId && c.scope != reg.scopes[sessionId] ==> answer == Err("stale_revision_cursor"))
        && (c.scope == reg.scopes[sessionId] && IssuedBySearch(c) ==>
              && (c.query != query ==> answer == Err("cursor_query_mismatch"))
              && (c.query == query && c.order != order ==> answer == Err("cursor_order_mismatch"))
              && (c.query == query && c.order == order ==> answer == Ok(c)))
        && (c.scope == reg.scopes[sessionId] && !IssuedBySearch(c) ==> answer == Err("invalid_cursor_source"))
  {
    if sessionId in reg.scopes && token in reg.searchCursors {
      assert Known(reg, reg.searchCursors[token].scope);
    }
  }

  /** A comment cursor is followed exactly by its own session, in its generation, for its post over the same comments. */
  lemma CommentCursorTells(reg: Registry, sessionId: string, token: string, postId: string, order: Digest)
    requires Valid(reg)
    ensures
      var answer := ResolveCommentCursor(reg, sessionId, token, postId, order);
      if sessionId !in reg.scopes then answer == Err("investigation_scope_unbound")
      else if token !in reg.commentCursors then answer == Err("unknown_cursor")
      else
        var c := reg.commentCursors[token];
        && (c.scope.sessionId != sessionId ==> answer == Err("cross_scope_cursor"))
        && (c.scope.sessionId == sessionId && c.scope != reg.scopes[sessionId] ==> answer == Err("stale_revision_cursor"))
        && (c.scope == reg.scopes[sessionId] ==>
              && (c.postId != postId ==> answer == Err("cursor_query_mismatch"))
              && (c.postId == postId && c.order != order ==> answer == Err("cursor_order_mismatch"))
              && (c.postId == postId && c.order == order && IssuedByComments(c) ==> answer == Ok(c))
              && (c.postId == postId && c.order == order && !IssuedByComments(c) ==> answer == Err("invalid_cursor_source")))
  {
    if sessionId in reg.scopes && token in reg.commentCursors {
      assert Known(reg, reg.commentCursors[token].scope);
    }
  }

  // ---- staging and publishing ----

  ghost predicate DistinctTokens(staged: seq<Record>) {
    forall i, j | 0 <= i < j < |staged| :: staged[i].token != staged[j].token
  }

  lemma {:induction false} StageTells(staged: seq<Record>, r: Record)
    requires DistinctTokens(staged)
    ensures DistinctTokens(Stage(staged, r))
    ensures forall x :: x in Stage(staged, r) <==> x == r || (x in staged && x.token != r.token)
    decreases |staged|
  {
    if staged != [] {
      var tail := staged[1..];
      assert forall x <- tail :: x.token != staged[0].token by {
        forall x | x in tail ensures x.token != staged[0].token {
          var i :| 0 <= i < |tail| && tail[i] == x;
          assert staged[i + 1] == x;
        }
      }
      StageTells(tail, r);
      assert staged == [staged[0]] + tail;
    }
  }

  /** The prefix of a token says which kind of object it names. */
  const PREFIX_OF: map<Kind, string> := map[Category := "g", Finding := "f", Post := "p", Comment := "c", Evidence := "e"]

  /** The record that is staged for an object: its published one with the origin, or a new one. */
  ghost predicate StagedFor(reg: Registry, scope: Scope, e: Exposed, kind: Kind, objectId: string, origin: Origin, r: Record) {
    var key := ObjectKey(scope.sessionId, scope.generation, kind, objectId);
    && r.token == e.token && r.scope == scope && r.kind == kind && r.objectId == objectId && origin in r.origins
    && (key in reg.byObject ==>
          && e.token == reg.byObject[key] && e.reg == reg && e.token in reg.records
          && reg.records[e.token].origins <= r.origins && (forall o <- r.origins :: o in reg.records[e.token].origins || o == origin))
    && (key !in reg.byObject ==>
          && kind in PREFIX_OF && e.token == Token(PREFIX_OF[kind], reg.counter + 1, reg.nonce)
          && e.reg == reg.(counter := reg.counter + 1) && r.origins == [origin])
  }

  lemma ExposedRecord(reg: Registry, batch: Batch, kind: Kind, objectId: string, origin: Origin) returns (r: Record)
    requires Valid(reg) && batch.scope.sessionId in reg.scopes && reg.scopes[batch.scope.sessionId] == batch.scope
    ensures
      var e := Expose(reg, batch, kind, objectId, origin);
      StagedFor(reg, batch.scope, e, kind, objectId, origin, r) && e.batch == batch.(staged := Stage(batch.staged, r))
  {
    hide Stage, Token;
    var key := ObjectKey(batch.scope.sessionId, batch.scope.generation, kind, objectId);
    var e := Expose(reg, batch, kind, objectId, origin);
    if key in reg.byObject {
      var known := reg.records[reg.byObject[key]];
      assert Known(reg, known.scope) && KeyOf(known) == key;
      r := known.(origins := if origin in known.origins then known.origins else known.origins + [origin]);
    } else {
      r := Record(e.token, batch.scope, kind, objectId, [origin]);
    }
  }

  /**
    Showing an object uses its published token, and its record keeps the origins it has and gets the
    new one; an object without one gets a new token. Everything else that is staged stays.
  */
  lemma ExposeTells(reg: Registry, batch: Batch, kind: Kind, objectId: string, origin: Origin)
    requires Valid(reg) && batch.scope.sessionId in reg.scopes && reg.scopes[batch.scope.sessionId] == batch.scope
    requires DistinctTokens(batch.staged)
    ensures
      var e := Expose(reg, batch, kind, objectId, origin);
      && e.batch.scope == batch.scope && e.batch.committed == batch.committed && DistinctTokens(e.batch.staged)
      && exists r ::
           && StagedFor(reg, batch.scope, e, kind, objectId, origin, r)
           && forall x :: x in e.batch.staged <==> x == r || (x in batch.staged && x.token != e.token)
  {
    hide Expose, Stage, Valid;
    var r := ExposedRecord(reg, batch, kind, objectId, origin);
    StageTells(batch.staged, r);
  }

  ghost predicate RecordsReached(records: map<string, Record>, staged: seq<Record>, n: nat, records': map<string, Record>)
    requires n <= |staged|
  {
    && (forall i | 0 <= i < n :: staged[i].token in records' && records'[staged[i].token] == staged[i])
    && (forall t | forall i | 0 <= i < n :: staged[i].token != t ::
          (t in records' <==> t in records) && (t in records ==> records'[t] == records[t]))
  }

  ghost predicate KeysReached(byObject: map<ObjectKey, string>, staged: seq<Record>, n: nat, byObject': map<ObjectKey, string>)
    requires n <= |staged|
  {
    && (forall i | 0 <= i < n :: KeyOf(staged[i]) in byObject' && byObject'[KeyOf(staged[i])] == staged[i].token)
    && (forall k | forall i | 0 <= i < n :: KeyOf(staged[i]) != k ::
          (k in byObject' <==> k in byObject) && (k in byObject ==> byObject'[k] == byObject[k]))
  }

  /** Exactly the first `n` of these records were published, and nothing else changed. */
  ghost predicate Reached(reg: Registry, staged: seq<Record>, n: nat, reg': Registry) {
    && n <= |staged|
    && RecordsReached(reg.records, staged, n, reg'.records) && KeysReached(reg.byObject, staged, n, reg'.byObject)
    && reg' == reg.(records := reg'.records, byObject := reg'.byObject)
  }

  lemma {:induction false} PublishTells(reg: Registry, staged: seq<Record>) returns (n: nat)
    requires DistinctTokens(staged)
    ensures n <= |staged| && Reached(reg, staged, n, Publish(reg, staged).0)
    ensures Publish(reg, staged).1 <==> n == |staged|
    ensures n < |staged| ==> Conflicts(Publish(reg, staged).0.byObject, staged[n])
    ensures forall i | 0 <= i < n :: !Conflicts(reg.byObject, staged[i])
    decreases |staged|
  {
    hide Reached, Conflicts, PublishOne;
    if staged == [] || Conflicts(reg.byObject, staged[0]) {
      n := 0;
      NothingReached(reg, staged);
    } else {
      var tail, next := staged[1..], PublishOne(reg, staged[0]);
      assert DistinctTokens(tail);
      var m := PublishTells(next, tail);
      n := m + 1;
      FirstKeyIsItsOwn(reg, staged, m);
      StillReached(reg, staged, m);
    }
  }

  lemma FirstKeyIsItsOwn(reg: Registry, staged: seq<Record>, m: nat)
    requires staged != [] && DistinctTokens(staged) && m <= |staged| - 1 && !Conflicts(reg.byObject, staged[0])
    requires forall i | 0 <= i < m :: !Conflicts(PublishOne(reg, staged[0]).byObject, staged[1..][i])
    ensures forall i | 0 <= i < m :: KeyOf(staged[1..][i]) != KeyOf(staged[0])
    ensures forall i | 0 <= i < m + 1 :: !Conflicts(reg.byObject, staged[i])
  {
    forall i | 0 <= i < m ensures KeyOf(staged[1..][i]) != KeyOf(staged[0]) {
      assert staged[1..][i] == staged[i + 1] && staged[i + 1].token != staged[0].token;
      assert !Conflicts(PublishOne(reg, staged[0]).byObject, staged[1..][i]);
    }
    forall i | 0 <= i < m + 1 ensures !Conflicts(reg.byObject, staged[i]) {
      if i > 0 {
        assert staged[i] == staged[1..][i - 1];
        assert !Conflicts(PublishOne(reg, staged[0]).byObject, staged[1..][i - 1]);
      }
    }
  }

  lemma NothingReached(reg: Registry, staged: seq<Record>)
    ensures Reached(reg, staged, 0, reg)
  {
  }

  lemma StillReached(reg: Registry, staged: seq<Record>, m: nat)
    requires staged != [] && DistinctTokens(staged) && m <= |staged| - 1
    requires !Conflicts(reg.byObject, staged[0])
    requires Reached(PublishOne(reg, staged[0]), staged[1..], m, Publish(reg, staged).0)
    requires forall i | 0 <= i < m :: KeyOf(staged[1..][i]) != KeyOf(staged[0])
    ensures Reached(reg, staged, m + 1, Publish(reg, staged).0)
  {
    hide Publish, RecordsReached, KeysReached, Conflicts, DistinctTokens;
    var reg' := Publish(reg, staged).0;
    RecordsStillReached(reg.records, staged, m, reg'.records);
    KeysStillReached(reg.byObject, staged, m, reg'.byObject);
  }

  lemma RecordsStillReached(records: map<string, Record>, staged: seq<Record>, m: nat, records': map<string, Record>)
    requires staged != [] && DistinctTokens(staged) && m <= |staged| - 1
    requires RecordsReached(records[staged[0].token := staged[0]], staged[1..], m, records')
    ensures RecordsReached(records, staged, m + 1, records')
  {
    var tail, next := staged[1..], records[staged[0].token := staged[0]];
    assert forall i | 0 <= i < m :: tail[i] == staged[i + 1];
    assert forall i | 0 <= i < m :: tail[i].token != staged[0].token;
    forall i | 0 <= i < m + 1 ensures staged[i].token in records' && records'[staged[i].token] == staged[i] {
      assert i > 0 ==> staged[i] == tail[i - 1];
    }
    forall t | forall i | 0 <= i < m + 1 :: staged[i].token != t
      ensures (t in records' <==> t in records) && (t in records ==> records'[t] == records[t])
    {
      assert staged[0].token != t;
    }
  }

  lemma KeysStillReached(byObject: map<ObjectKey, string>, staged: seq<Record>, m: nat, byObject': map<ObjectKey, string>)
    requires staged != [] && m <= |staged| - 1
    requires KeysReached(byObject[KeyOf(staged[0]) := staged[0].token], staged[1..], m, byObject')
    requires forall i | 0 <= i < m :: KeyOf(staged[1..][i]) != KeyOf(staged[0])
    ensures KeysReached(byObject, staged, m + 1, byObject')
  {
    hide KeyOf;
    var tail := staged[1..];
    assert forall i | 0 <= i < m :: tail[i] == staged[i + 1];
    forall i | 0 <= i < m + 1 ensures KeyOf(staged[i]) in byObject' && byObject'[KeyOf(staged[i])] == staged[i].token {
      assert i > 0 ==> staged[i] == tail[i - 1];
    }
    forall k | forall i | 0 <= i < m + 1 :: KeyOf(staged[i]) != k
      ensures (k in byObject' <==> k in byObject) && (k in byObject ==> byObject'[k] == byObject[k])
    {
      assert KeyOf(staged[0]) != k;
    }
  }

  /**
    A commit does nothing the second time and nothing when the scope changed; else it publishes every
    record, or breaks off at the first one whose object has another token, keeping what went before.
  */
  lemma CommitTells(reg: Registry, batch: Batch) returns (n: nat)
    requires DistinctTokens(batch.staged)
    ensures
      var (reg', outcome) := Commit(reg, batch);
      if batch.committed then reg' == reg && outcome == Ok(batch)
      else if batch.scope.sessionId !in reg.scopes || reg.scopes[batch.scope.sessionId] != batch.scope
      then reg' == reg && outcome == Err("stale_revision_ref")
      else
        && Reached(reg, batch.staged, n, reg')
        && (n == |batch.staged| ==> outcome == Ok(batch.(committed := true)))
        && (n < |batch.staged| ==>
              && outcome == Err("concurrent_publication")
              && KeyOf(batch.staged[n]) in reg'.byObject && reg'.byObject[KeyOf(batch.staged[n])] != batch.staged[n].token)
  {
    hide Publish, Reached;
    n := PublishTells(reg, batch.staged);
  }
}
