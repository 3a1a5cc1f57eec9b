/**
  Saving a session's references and loading them into another process (`reference_state.py`).
  A saved state is a list of typed records; JSON and its digest are read as the identity.
*/
module ReferenceState {
  import opened Wrappers
  import opened Tokens
  import opened ReportTaskRefs

  datatype Dump = Dump(nonce: string, counter: nat, scopes: seq<Scope>, records: seq<Record>,
                       searchCursors: seq<Cursor>, commentCursors: seq<CommentCursor>)

  const RecordToken: Record -> string := (r: Record) => r.token
  const CursorToken: Cursor -> string := (c: Cursor) => c.token
  const CommentCursorToken: CommentCursor -> string := (c: CommentCursor) => c.token

  /** `registry.update({r.token: r for r in items})`. */
  function UpdateAll<T>(m: map<string, T>, items: seq<T>, tokenOf: T -> string): map<string, T>
    decreases |items|
  {
    if items == [] then m else UpdateAll(m[tokenOf(items[0]) := items[0]], items[1..], tokenOf)
  }

  function RebuildByObject(byObject: map<ObjectKey, string>, records: seq<Record>): map<ObjectKey, string>
    decreases |records|
  {
    if records == [] then byObject
    else RebuildByObject(byObject[KeyOf(records[0]) := records[0].token], records[1..])
  }

  predicate BelongsTo(d: Dump, sessionId: string) {
    && (forall r <- d.records :: r.scope.sessionId == sessionId)
    && (forall c <- d.searchCursors :: c.scope.sessionId == sessionId)
    && (forall c <- d.commentCursors :: c.scope.sessionId == sessionId)
  }

  function Max(a: nat, b: nat): nat {
    if a < b then b else a
  }

  /** `_load`, called after the session was bound to the report it is authorized for. */
  function Load(reg: Registry, sessionId: string, d: Dump): Result<Registry>
    requires sessionId in reg.scopes
  {
    if |d.scopes| != 1
       || d.scopes[0].sessionId != reg.scopes[sessionId].sessionId
       || d.scopes[0].binding != reg.scopes[sessionId].binding
    then Err("saved_scope_differs")
    else if d.scopes[0].sessionId != sessionId || !BelongsTo(d, sessionId) then Err("cross_session_state")
    else Ok(Registry(d.nonce, Max(reg.counter, d.counter),
                     reg.scopes[sessionId := d.scopes[0]],
                     UpdateAll(reg.records, d.records, RecordToken),
                     RebuildByObject(reg.byObject, d.records),
                     UpdateAll(reg.searchCursors, d.searchCursors, CursorToken),
                     UpdateAll(reg.commentCursors, d.commentCursors, CommentCursorToken)))
  }

  /** A saved state is loaded exactly for the one session it was saved for, under its binding, with nothing of another session. */
  lemma LoadAcceptsIff(reg: Registry, sessionId: string, d: Dump)
    requires sessionId in reg.scopes && reg.scopes[sessionId].sessionId == sessionId
    ensures Load(reg, sessionId, d).Ok? <==>
      && (exists generation: nat :: d.scopes == [Scope(sessionId, reg.scopes[sessionId].binding, generation)])
      && (forall r <- d.records :: r.scope.sessionId == sessionId)
      && (forall c <- d.searchCursors :: c.scope.sessionId == sessionId)
      && (forall c <- d.commentCursors :: c.scope.sessionId == sessionId)
    ensures Load(reg, sessionId, d).Ok? ==>
      var loaded := Load(reg, sessionId, d).value;
      && loaded.scopes == reg.scopes[sessionId := d.scopes[0]]
      && loaded.nonce == d.nonce && loaded.counter >= reg.counter && loaded.counter >= d.counter
      && (loaded.counter == reg.counter || loaded.counter == d.counter)
  {
    hide UpdateAll, RebuildByObject;
    if |d.scopes| == 1 {
      assert d.scopes == [d.scopes[0]] && d.scopes[0] == Scope(d.scopes[0].sessionId, d.scopes[0].binding, d.scopes[0].generation);
    }
  }

  /** `items` lists, in some order, exactly the entries of `m` that belong to the session. */
  ghost predicate ListsPart<T(!new)>(items: seq<T>, m: map<string, T>, tokenOf: T -> string, scopeOf: T -> Scope, sessionId: string) {
    && (forall x <- items :: tokenOf(x) in m && m[tokenOf(x)] == x && scopeOf(x).sessionId == sessionId)
    && (forall t <- m :: scopeOf(m[t]).sessionId == sessionId ==> m[t] in items)
  }

  const RecordScope: Record -> Scope := (r: Record) => r.scope
  const CursorScope: Cursor -> Scope := (c: Cursor) => c.scope
  const CommentCursorScope: CommentCursor -> Scope := (c: CommentCursor) => c.scope

  /** `_dump`: the dictionaries are listed in whatever order they have. */
  ghost predicate IsDump(reg: Registry, sessionId: string, d: Dump) {
    && d.nonce == reg.nonce
    && d.counter == reg.counter
    && sessionId in reg.scopes
    && d.scopes == [reg.scopes[sessionId]]
    && ListsPart(d.records, reg.records, RecordToken, RecordScope, sessionId)
    && ListsPart(d.searchCursors, reg.searchCursors, CursorToken, CursorScope, sessionId)
    && ListsPart(d.commentCursors, reg.commentCursors, CommentCursorToken, CommentCursorScope, sessionId)
  }

  // ---- the two loops of `_load` ----

  ghost predicate Functional<T(!new)>(items: seq<T>, tokenOf: T -> string) {
    forall x, y | x in items && y in items && tokenOf(x) == tokenOf(y) :: x == y
  }

  lemma {:induction false} UpdateAllSpec<T(!new)>(m: map<string, T>, items: seq<T>, tokenOf: T -> string)
    requires Functional(items, tokenOf)
    ensures
      var u := UpdateAll(m, items, tokenOf);
      && (forall x <- items :: tokenOf(x) in u && u[tokenOf(x)] == x)
      && (forall t <- m :: t in u && (u[t] == m[t] || u[t] in items))
      && (forall t <- u :: (t in m && u[t] == m[t]) || (u[t] in items && tokenOf(u[t]) == t))
    decreases |items|
  {
    if items != [] {
      var m1 := m[tokenOf(items[0]) := items[0]];
      assert forall x <- items[1..] :: x in items;
      UpdateAllSpec(m1, items[1..], tokenOf);
      var u := UpdateAll(m1, items[1..], tokenOf);
      forall x | x in items ensures tokenOf(x) in u && u[tokenOf(x)] == x {
        if x !in items[1..] {
          assert x == items[0];
        }
      }
    }
  }

  lemma {:induction false} UpdateAllKnown<T(!new)>(m: map<string, T>, items: seq<T>, tokenOf: T -> string)
    requires forall x <- items :: tokenOf(x) in m && m[tokenOf(x)] == x
    ensures UpdateAll(m, items, tokenOf) == m
    decreases |items|
  {
    if items != [] {
      assert m[tokenOf(items[0]) := items[0]] == m;
      UpdateAllKnown(m, items[1..], tokenOf);
    }
  }

  lemma {:induction false} RebuildSpec(byObject: map<ObjectKey, string>, records: seq<Record>)
    ensures
      var b := RebuildByObject(byObject, records);
      && (forall r <- records :: KeyOf(r) in b)
      && (forall k <- byObject :: k in b)
      && (forall k <- b :: (k in byObject && b[k] == byObject[k] && forall r <- records :: KeyOf(r) != k)
                           || exists r <- records :: KeyOf(r) == k && r.token == b[k])
    decreases |records|
  {
    if records != [] {
      var b1 := byObject[KeyOf(records[0]) := records[0].token];
      RebuildSpec(b1, records[1..]);
      var b := RebuildByObject(b1, records[1..]);
      assert records == [records[0]] + records[1..];
      forall k | k in b
        ensures (k in byObject && b[k] == byObject[k] && forall r <- records :: KeyOf(r) != k)
                || exists r <- records :: KeyOf(r) == k && r.token == b[k]
      {
        if exists r <- records[1..] :: KeyOf(r) == k && r.token == b[k] {
          var r :| r in records[1..] && KeyOf(r) == k && r.token == b[k];
          assert r in records;
        } else if k == KeyOf(records[0]) {
          assert records[0] in records;
        }
      }
    }
  }

  /** A session newly bound in a process that knows nothing yet. */
  function FreshlyBound(nonce: string, sessionId: string, binding: Binding): Registry {
    EmptyRegistry(nonce).(scopes := map[sessionId := Scope(sessionId, binding, 1)])
  }

  function SessionPart<T>(m: map<string, T>, scopeOf: T -> Scope, sessionId: string): map<string, T> {
    map t | t in m && scopeOf(m[t]).sessionId == sessionId :: m[t]
  }

  lemma LoadedPart<T(!new)>(items: seq<T>, m: map<string, T>, tokenOf: T -> string, scopeOf: T -> Scope, sessionId: string)
    requires ListsPart(items, m, tokenOf, scopeOf, sessionId)
    requires forall t <- m :: tokenOf(m[t]) == t
    ensures UpdateAll(map[], items, tokenOf) == SessionPart(m, scopeOf, sessionId)
  {
    UpdateAllSpec(map[], items, tokenOf);
  }

  /** The dictionaries after a save and a load into a fresh process are the session's part of the old ones. */
  lemma RestoredDictionaries(reg: Registry, sessionId: string, d: Dump, nonce: string)
    requires Valid(reg) && IsDump(reg, sessionId, d)
    ensures
      Load(FreshlyBound(nonce, sessionId, reg.scopes[sessionId].binding), sessionId, d) ==
      Ok(Registry(reg.nonce, reg.counter, map[sessionId := reg.scopes[sessionId]],
                  SessionPart(reg.records, RecordScope, sessionId),
                  RebuildByObject(map[], d.records),
                  SessionPart(reg.searchCursors, CursorScope, sessionId),
                  SessionPart(reg.commentCursors, CommentCursorScope, sessionId)))
  {
    LoadedPart(d.records, reg.records, RecordToken, RecordScope, sessionId);
    LoadedPart(d.searchCursors, reg.searchCursors, CursorToken, CursorScope, sessionId);
    LoadedPart(d.commentCursors, reg.commentCursors, CommentCursorToken, CommentCursorScope, sessionId);
    var bare := FreshlyBound(nonce, sessionId, reg.scopes[sessionId].binding);
    assert bare.scopes[sessionId := d.scopes[0]] == map[sessionId := reg.scopes[sessionId]];
    assert d.scopes[0].sessionId == sessionId;
    DumpBelongs(reg, sessionId, d);
  }

  /**
    Save, die, bind again, load: the session gets the same answer for every reference and cursor
    it ever had, and a reference or cursor of another session stays refused.
  */
  lemma RestoreKeepsAnswers(reg: Registry, sessionId: string, d: Dump, nonce: string)
    requires Valid(reg) && IsDump(reg, sessionId, d)
    ensures
      var reg' := Load(FreshlyBound(nonce, sessionId, reg.scopes[sessionId].binding), sessionId, d).value;
      && (forall token, expected ::
            var was, now := Resolve(reg, sessionId, token, expected), Resolve(reg', sessionId, token, expected);
            now == was || (was == Err("cross_scope_ref") && now == Err("unknown_ref")))
      && (forall token, query, order ::
            var was, now := ResolveSearchCursor(reg, sessionId, token, query, order),
                            ResolveSearchCursor(reg', sessionId, token, query, order);
            now == was || (was == Err("cross_scope_cursor") && now == Err("unknown_cursor")))
      && (forall token, postId, order ::
            var was, now := ResolveCommentCursor(reg, sessionId, token, postId, order),
                            ResolveCommentCursor(reg', sessionId, token, postId, order);
            now == was || (was == Err("cross_scope_cursor") && now == Err("unknown_cursor")))
  {
    RestoredDictionaries(reg, sessionId, d, nonce);
  }

  /** The rebuilt object index leads from every saved object to a live reference of that object, whatever the order. */
  lemma RestoredIndex(reg: Registry, sessionId: string, d: Dump, nonce: string)
    requires Valid(reg) && IsDump(reg, sessionId, d)
    ensures
      var reg' := Load(FreshlyBound(nonce, sessionId, reg.scopes[sessionId].binding), sessionId, d).value;
      && Valid(reg')
      && (forall k :: k in reg'.byObject <==> exists t <- reg'.records :: KeyOf(reg'.records[t]) == k)
      && (OneTokenPerObject(reg) ==>
            && OneTokenPerObject(reg')
            && forall k <- reg'.byObject :: k in reg.byObject && reg'.byObject[k] == reg.byObject[k])
  {
    RestoredDictionaries(reg, sessionId, d, nonce);
    RebuildSpec(map[], d.records);
    var reg' := Load(FreshlyBound(nonce, sessionId, reg.scopes[sessionId].binding), sessionId, d).value;
    hide Load, RebuildByObject, FreshlyBound;
    forall k | k in reg'.byObject
      ensures reg'.byObject[k] in reg'.records && KeyOf(reg'.records[reg'.byObject[k]]) == k
    {
      var r :| r in d.records && KeyOf(r) == k && r.token == reg'.byObject[k];
      assert RecordToken(r) == r.token && RecordScope(r) == r.scope;
    }
    forall t | t in reg'.records ensures KeyOf(reg'.records[t]) in reg'.byObject {
      assert reg'.records[t] in d.records;
    }
    assert ByObjectOk(reg');
    assert RecordsOk(reg') && CursorsOk(reg') && ScopesOk(reg');
  }

  /** No reference or cursor issued after the load can be mistaken for a saved one. */
  lemma RestoredTokensAreSpent(reg: Registry, sessionId: string, d: Dump, nonce: string, prefix: string)
    requires Valid(reg) && IsDump(reg, sessionId, d)
    requires Spent(reg.counter, UsedTokens(reg, map t | t in reg.records :: IdentityOf(reg.records[t])))
    requires IsPrefix(prefix)
    ensures
      var reg' := Load(FreshlyBound(nonce, sessionId, reg.scopes[sessionId].binding), sessionId, d).value;
      && NextToken(reg', prefix) !in reg'.records
      && NextToken(reg', prefix) !in reg'.searchCursors
      && NextToken(reg', prefix) !in reg'.commentCursors
      && Spent(reg'.counter, UsedTokens(reg', map t | t in reg'.records :: IdentityOf(reg'.records[t])))
  {
    RestoredDictionaries(reg, sessionId, d, nonce);
    var reg' := Load(FreshlyBound(nonce, sessionId, reg.scopes[sessionId].binding), sessionId, d).value;
    var used := UsedTokens(reg, map t | t in reg.records :: IdentityOf(reg.records[t]));
    var used' := UsedTokens(reg', map t | t in reg'.records :: IdentityOf(reg'.records[t]));
    assert used' <= used;
    NextTokenIsNew(reg', prefix, used');
  }

  /** With one session in the registry and no aliases, a save and a load give back the very same registry. */
  lemma RestoreIsIdentity(reg: Registry, sessionId: string, d: Dump, nonce: string)
    requires Valid(reg) && OneTokenPerObject(reg) && reg.scopes.Keys == {sessionId} && IsDump(reg, sessionId, d)
    ensures Load(FreshlyBound(nonce, sessionId, reg.scopes[sessionId].binding), sessionId, d) == Ok(reg)
  {
    RestoredDictionaries(reg, sessionId, d, nonce);
    RestoredIndex(reg, sessionId, d, nonce);
    var reg' := Load(FreshlyBound(nonce, sessionId, reg.scopes[sessionId].binding), sessionId, d).value;
    assert reg'.scopes == reg.scopes;
    assert reg'.records == reg.records && reg'.searchCursors == reg.searchCursors && reg'.commentCursors == reg.commentCursors;
    forall k | k in reg.byObject ensures k in reg'.byObject {
      assert KeyOf(reg'.records[reg.byObject[k]]) == k;
    }
    assert reg'.byObject == reg.byObject;
  }

  lemma ReloadedRecords(reg: Registry, from: Registry, sessionId: string, items: seq<Record>)
    requires RecordsOk(reg) && RecordsOk(from) && Grows(from, reg)
    requires ListsPart(items, from.records, RecordToken, RecordScope, sessionId)
    ensures
      var records := UpdateAll(reg.records, items, RecordToken);
      && records.Keys == reg.records.Keys
      && forall t <- records :: IdentityOf(records[t]) == IdentityOf(reg.records[t]) && records[t].token == t
  {
    assert forall r <- items :: RecordToken(r) == r.token && r.token in from.records && from.records[r.token] == r;
    UpdateAllSpec(reg.records, items, RecordToken);
    var records := UpdateAll(reg.records, items, RecordToken);
    forall t | t in records
      ensures t in reg.records && IdentityOf(records[t]) == IdentityOf(reg.records[t]) && records[t].token == t
    {
      if records[t] in items {
        assert from.records[t] == records[t];
      }
    }
  }

  lemma ReloadedIndex(s: System, from: Registry, sessionId: string, d: Dump)
    requires Inv(s) && IsDump(from, sessionId, d) && Grows(from, s.reg)
    ensures RebuildByObject(s.reg.byObject, d.records) == s.reg.byObject
  {
    RebuildSpec(s.reg.byObject, d.records);
    forall r | r in d.records ensures KeyOf(r) in s.reg.byObject && s.reg.byObject[KeyOf(r)] == r.token {
      assert RecordToken(r) == r.token && from.records[r.token] == r;
      assert KeyOf(s.reg.records[r.token]) == KeyOf(r);
    }
  }

  lemma DumpBelongs(reg: Registry, sessionId: string, d: Dump)
    requires IsDump(reg, sessionId, d)
    ensures BelongsTo(d, sessionId)
  {
    assert forall r <- d.records :: RecordScope(r) == r.scope;
    assert forall c <- d.searchCursors :: CursorScope(c) == c.scope;
    assert forall c <- d.commentCursors :: CommentCursorScope(c) == c.scope;
  }

  /** Loading what the running process already holds takes nothing away and keeps the registry invariant. */
  lemma ReloadKeepsInv(s: System, from: Registry, sessionId: string, d: Dump)
    requires Inv(s) && sessionId in s.reg.scopes
    requires Valid(from) && IsDump(from, sessionId, d)
    requires Grows(from, s.reg) && s.reg.scopes[sessionId] == from.scopes[sessionId]
    ensures
      var loaded := Load(s.reg, sessionId, d);
      && loaded.Ok?
      && Inv(s.(reg := loaded.value))
      && Grows(s.reg, loaded.value)
      && loaded.value.scopes == s.reg.scopes
  {
    DumpBelongs(from, sessionId, d);
    ReloadedRecords(s.reg, from, sessionId, d.records);
    ReloadedIndex(s, from, sessionId, d);
    UpdateAllKnown(s.reg.searchCursors, d.searchCursors, CursorToken);
    UpdateAllKnown(s.reg.commentCursors, d.commentCursors, CommentCursorToken);
    assert d.scopes[0] == s.reg.scopes[sessionId] && d.scopes[0].sessionId == sessionId;
    assert s.reg.scopes[sessionId := d.scopes[0]] == s.reg.scopes;
    var reg' := Load(s.reg, sessionId, d).value;
    assert reg' == s.reg.(nonce := reg'.nonce, counter := reg'.counter, records := reg'.records);
    ReloadedIsInv(s, reg');
  }

  lemma ReloadedIsInv(s: System, reg': Registry)
    requires Inv(s)
    requires reg' == s.reg.(nonce := reg'.nonce, counter := reg'.counter, records := reg'.records)
    requires s.reg.counter <= reg'.counter && reg'.records.Keys == s.reg.records.Keys
    requires forall t <- reg'.records :: IdentityOf(reg'.records[t]) == IdentityOf(s.reg.records[t]) && reg'.records[t].token == t
    ensures Inv(s.(reg := reg')) && Grows(s.reg, reg')
  {
    assert forall scope :: Known(s.reg, scope) ==> Known(reg', scope);
    assert RecordsOk(reg') && ByObjectOk(reg') && CursorsOk(reg');
    assert AllMinted(reg', s.batches, s.minted) by {
      forall t | t in reg'.records ensures Minted(s.minted, reg'.records[t]) {
        assert Minted(s.minted, s.reg.records[t]);
      }
    }
    assert UsedTokens(reg', s.minted) == UsedTokens(s.reg, s.minted);
  }

  // ---- several sessions in one registry ----

  /** Whatever another session can resolve, a reference or a cursor, it resolves to the same afterwards. */
  ghost predicate OthersSpared(reg: Registry, reg': Registry, sessionId: string) {
    && (forall x, t | x != sessionId && Resolve(reg, x, t, None).Ok? :: Resolve(reg', x, t, None) == Resolve(reg, x, t, None))
    && (forall x, t, query, order | x != sessionId && ResolveSearchCursor(reg, x, t, query, order).Ok? ::
          ResolveSearchCursor(reg', x, t, query, order) == ResolveSearchCursor(reg, x, t, query, order))
    && (forall x, t, postId, order | x != sessionId && ResolveCommentCursor(reg, x, t, postId, order).Ok? ::
          ResolveCommentCursor(reg', x, t, postId, order) == ResolveCommentCursor(reg, x, t, postId, order))
  }

  predicate TakesRecord(reg: Registry, sessionId: string, token: string) {
    token in reg.records && var owner := reg.records[token].scope.sessionId;
    owner != sessionId && Resolve(reg, owner, token, None).Ok?
  }

  predicate TakesSearchCursor(reg: Registry, sessionId: string, token: string) {
    token in reg.searchCursors && var c := reg.searchCursors[token];
    c.scope.sessionId != sessionId && ResolveSearchCursor(reg, c.scope.sessionId, token, c.query, c.order).Ok?
  }

  predicate TakesCommentCursor(reg: Registry, sessionId: string, token: string) {
    token in reg.commentCursors && var c := reg.commentCursors[token];
    c.scope.sessionId != sessionId && ResolveCommentCursor(reg, c.scope.sessionId, token, c.postId, c.order).Ok?
  }

  /** No token of the dump is one that another session can still resolve, as what it is in the dump. */
  predicate TakesNothing(reg: Registry, sessionId: string, d: Dump) {
    && (forall r | r in d.records :: !TakesRecord(reg, sessionId, r.token))
    && (forall c | c in d.searchCursors :: !TakesSearchCursor(reg, sessionId, c.token))
    && (forall c | c in d.commentCursors :: !TakesCommentCursor(reg, sessionId, c.token))
  }

  /** What a load makes of one dictionary: the entries of the dump, else what was there. */
  ghost predicate Overwrites<T(!new)>(m: map<string, T>, items: seq<T>, tokenOf: T -> string, m': map<string, T>) {
    && (forall x <- items :: tokenOf(x) in m' && m'[tokenOf(x)] == x)
    && (forall t <- m :: t in m' && ((exists x <- items :: tokenOf(x) == t) || m'[t] == m[t]))
  }

  lemma UpdateOverwrites<T(!new)>(m: map<string, T>, items: seq<T>, tokenOf: T -> string)
    requires Functional(items, tokenOf)
    ensures Overwrites(m, items, tokenOf, UpdateAll(m, items, tokenOf))
  {
    hide UpdateAll;
    UpdateAllSpec(m, items, tokenOf);
    var m' := UpdateAll(m, items, tokenOf);
    forall t | t in m ensures t in m' && ((exists x <- items :: tokenOf(x) == t) || m'[t] == m[t]) {
      if m'[t] != m[t] {
        assert m'[t] in items && tokenOf(m'[t]) == t;
      }
    }
  }

  /** A load that keeps the other scopes and overwrites these dictionaries. */
  ghost predicate Loaded(reg: Registry, sessionId: string, d: Dump, reg': Registry) {
    && BelongsTo(d, sessionId)
    && (forall x | x != sessionId :: (x in reg'.scopes <==> x in reg.scopes) && (x in reg.scopes ==> reg'.scopes[x] == reg.scopes[x]))
    && Overwrites(reg.records, d.records, RecordToken, reg'.records)
    && Overwrites(reg.searchCursors, d.searchCursors, CursorToken, reg'.searchCursors)
    && Overwrites(reg.commentCursors, d.commentCursors, CommentCursorToken, reg'.commentCursors)
  }

  lemma RecordsSparedIff(reg: Registry, sessionId: string, d: Dump, reg': Registry)
    requires Valid(reg) && Loaded(reg, sessionId, d, reg')
    ensures
      (forall x, t | x != sessionId && Resolve(reg, x, t, None).Ok? :: Resolve(reg', x, t, None) == Resolve(reg, x, t, None))
      <==> forall r | r in d.records :: !TakesRecord(reg, sessionId, r.token)
  {
    assert forall r <- d.records :: RecordToken(r) == r.token;
    forall r | r in d.records && TakesRecord(reg, sessionId, r.token)
      ensures Resolve(reg', reg.records[r.token].scope.sessionId, r.token, None).Err?
    {
      assert reg'.records[r.token] == r;
    }
    forall x, t | x != sessionId && Resolve(reg, x, t, None).Ok? && reg'.records[t] != reg.records[t]
      ensures exists r <- d.records :: TakesRecord(reg, sessionId, r.token)
    {
      var r :| r in d.records && RecordToken(r) == t;
      assert TakesRecord(reg, sessionId, r.token);
    }
  }

  lemma SearchCursorsSparedIff(reg: Registry, sessionId: string, d: Dump, reg': Registry)
    requires Valid(reg) && Loaded(reg, sessionId, d, reg')
    ensures
      (forall x, t, query, order | x != sessionId && ResolveSearchCursor(reg, x, t, query, order).Ok? ::
         ResolveSearchCursor(reg', x, t, query, order) == ResolveSearchCursor(reg, x, t, query, order))
      <==> forall c | c in d.searchCursors :: !TakesSearchCursor(reg, sessionId, c.token)
  {
    assert forall c <- d.searchCursors :: CursorToken(c) == c.token;
    forall c | c in d.searchCursors && TakesSearchCursor(reg, sessionId, c.token)
      ensures
        var was := reg.searchCursors[c.token];
        ResolveSearchCursor(reg', was.scope.sessionId, c.token, was.query, was.order).Err?
    {
      assert reg'.searchCursors[c.token] == c;
    }
    forall x, t, query, order | x != sessionId && ResolveSearchCursor(reg, x, t, query, order).Ok?
                                && reg'.searchCursors[t] != reg.searchCursors[t]
      ensures exists c <- d.searchCursors :: TakesSearchCursor(reg, sessionId, c.token)
    {
      var c :| c in d.searchCursors && CursorToken(c) == t;
      assert TakesSearchCursor(reg, sessionId, c.token);
    }
  }

  lemma CommentCursorsSparedIff(reg: Registry, sessionId: string, d: Dump, reg': Registry)
    requires Valid(reg) && Loaded(reg, sessionId, d, reg')
    ensures
      (forall x, t, postId, order | x != sessionId && ResolveCommentCursor(reg, x, t, postId, order).Ok? ::
         ResolveCommentCursor(reg', x, t, postId, order) == ResolveCommentCursor(reg, x, t, postId, order))
      <==> forall c | c in d.commentCursors :: !TakesCommentCursor(reg, sessionId, c.token)
  {
    assert forall c <- d.commentCursors :: CommentCursorToken(c) == c.token;
    forall c | c in d.commentCursors && TakesCommentCursor(reg, sessionId, c.token)
      ensures
        var was := reg.commentCursors[c.token];
        ResolveCommentCursor(reg', was.scope.sessionId, c.token, was.postId, was.order).Err?
    {
      assert reg'.commentCursors[c.token] == c;
    }
    forall x, t, postId, order | x != sessionId && ResolveCommentCursor(reg, x, t, postId, order).Ok?
                                 && reg'.commentCursors[t] != reg.commentCursors[t]
      ensures exists c <- d.commentCursors :: TakesCommentCursor(reg, sessionId, c.token)
    {
      var c :| c in d.commentCursors && CommentCursorToken(c) == t;
      assert TakesCommentCursor(reg, sessionId, c.token);
    }
  }

  ghost predicate Wellformed(d: Dump) {
    && Functional(d.records, RecordToken)
    && Functional(d.searchCursors, CursorToken)
    && Functional(d.commentCursors, CommentCursorToken)
  }

  lemma LoadLoads(reg: Registry, sessionId: string, d: Dump)
    requires sessionId in reg.scopes && Load(reg, sessionId, d).Ok? && Wellformed(d)
    ensures Loaded(reg, sessionId, d, Load(reg, sessionId, d).value)
  {
    hide Overwrites, Functional, UpdateAll, RebuildByObject;
    UpdateOverwrites(reg.records, d.records, RecordToken);
    UpdateOverwrites(reg.searchCursors, d.searchCursors, CursorToken);
    UpdateOverwrites(reg.commentCursors, d.commentCursors, CommentCursorToken);
  }

  /**
    Loading one session leaves every reference and every cursor of every other session working exactly
    when no token of the dump is one that another session can still resolve.
  */
  lemma LoadSparesOthersIff(reg: Registry, sessionId: string, d: Dump)
    requires Valid(reg) && sessionId in reg.scopes && Load(reg, sessionId, d).Ok? && Wellformed(d)
    ensures OthersSpared(reg, Load(reg, sessionId, d).value, sessionId) <==> TakesNothing(reg, sessionId, d)
  {
    hide Load, Wellformed, Loaded, Valid, TakesRecord, TakesSearchCursor, TakesCommentCursor, Resolve, ResolveSearchCursor, ResolveCommentCursor;
    var reg' := Load(reg, sessionId, d).value;
    LoadLoads(reg, sessionId, d);
    RecordsSparedIff(reg, sessionId, d, reg');
    SearchCursorsSparedIff(reg, sessionId, d, reg');
    CommentCursorsSparedIff(reg, sessionId, d, reg');
  }

  /** What a registry dumps is well formed: the condition of the load is met by every saved state. */
  lemma DumpIsWellformed(reg: Registry, sessionId: string, d: Dump)
    requires IsDump(reg, sessionId, d)
    ensures Wellformed(d)
  {
  }

  // ---- two sessions of one service ----

  const LISTED := Origin(None, "search_posts", "risk_post_candidate_directory", "risk_preview")

  /** One committed reference to one object, as a tool call leaves it behind. */
  function WithReference(reg: Registry, scope: Scope, objectId: string): Registry {
    var token := NextToken(reg, Prefix(Post));
    PublishOne(reg.(counter := reg.counter + 1), PostRecord(token, scope, objectId))
  }

  function PostRecord(token: string, scope: Scope, objectId: string): Record {
    Record(token, scope, Post, objectId, [LISTED])
  }

  /** The tool call itself, as steps of the process. */
  function Referencing(id: nat, scope: Scope, objectId: string): seq<Step> {
    [OpenBatch(id, scope.sessionId), ExposeObject(id, Post, objectId, LISTED), CommitBatch(id)]
  }

  lemma {:induction false} RunsJoin(s: System, a: seq<Step>, b: seq<Step>)
    ensures Run(s, a + b) == Run(Run(s, a), b)
    decreases |a|
  {
    hide Next;
    if a == [] {
      assert a + b == b;
    } else {
      RunsJoin(Next(s, a[0]), a[1..], b);
      assert (a + b)[0] == a[0] && (a + b)[1..] == a[1..] + b;
    }
  }

  lemma RunOfOne(s: System, step: Step)
    ensures Run(s, [step]) == Next(s, step)
  {
    hide Next;
    assert Run(Next(s, step), []) == Next(s, step);
  }

  lemma RunOfThree(s: System, a: Step, b: Step, c: Step)
    ensures Run(s, [a, b, c]) == Next(Next(Next(s, a), b), c)
  {
    hide Next;
    assert [a, b, c] == [a] + ([b] + [c]);
    RunsJoin(s, [a], [b] + [c]);
    RunOfOne(s, a);
    RunsJoin(Next(s, a), [b], [c]);
    RunOfOne(Next(s, a), b);
    RunOfOne(Next(Next(s, a), b), c);
  }

  /** Running the tool call gives its reference. */
  lemma ReferencingReferences(s: System, id: nat, scope: Scope, objectId: string)
    requires id !in s.batches && scope.sessionId in s.reg.scopes && s.reg.scopes[scope.sessionId] == scope
    requires ObjectKey(scope.sessionId, scope.generation, Post, objectId) !in s.reg.byObject
    ensures
      var s' := Run(s, Referencing(id, scope, objectId));
      s'.reg == WithReference(s.reg, scope, objectId) && s'.batches.Keys == s.batches.Keys + {id}
  {
    RunOfThree(s, OpenBatch(id, scope.sessionId), ExposeObject(id, Post, objectId, LISTED), CommitBatch(id));
    hide Run;
    var s1 := Next(s, OpenBatch(id, scope.sessionId));
    assert s1.batches[id] == Batch(scope, [], false) && s1.reg == s.reg;
    var s2 := Next(s1, ExposeObject(id, Post, objectId, LISTED));
    var r := PostRecord(NextToken(s.reg, Prefix(Post)), scope, objectId);
    assert s2.batches[id] == Batch(scope, [r], false) && s2.reg == s.reg.(counter := s.reg.counter + 1);
    assert [r][1..] == [];
    assert Publish(s2.reg, [r]) == (PublishOne(s2.reg, r), true);
  }

  /** The registry is one that a process can have. */
  ghost predicate IsReached(nonce: string, reg: Registry) {
    exists steps :: Run(System(EmptyRegistry(nonce), map[], map[]), steps).reg == reg
  }

  /** A process in which sessions x and y each got one reference, x first. */
  function TwoSessions(nonce: string, sx: Scope, sy: Scope): Registry {
    WithReference(BeforeY(nonce, sx, sy), sy, "post:2")
  }

  /** The same process before the second reference: x has its reference and y is only bound. */
  function BeforeY(nonce: string, sx: Scope, sy: Scope): Registry {
    WithReference(BothBound(nonce, sx, sy), sx, "post:1")
  }

  function BothBound(nonce: string, sx: Scope, sy: Scope): Registry {
    EmptyRegistry(nonce).(scopes := map[sx.sessionId := sx, sy.sessionId := sy])
  }

  /** Two sessions of one report, newly bound. */
  predicate AreTwo(sx: Scope, sy: Scope) {
    && sx.sessionId != "" && sy.sessionId != "" && sx.sessionId != sy.sessionId
    && sx.binding == sy.binding && sx.generation == sy.generation == 1
  }

  function Binding2(sx: Scope, sy: Scope): seq<Step> {
    [BindSession(sx.sessionId, sx.binding, false)] + [BindSession(sy.sessionId, sy.binding, false)]
  }

  lemma BindingBinds(nonce: string, sx: Scope, sy: Scope)
    requires AreTwo(sx, sy)
    ensures Run(System(EmptyRegistry(nonce), map[], map[]), Binding2(sx, sy)) == System(BothBound(nonce, sx, sy), map[], map[])
  {
    var s, a, b := System(EmptyRegistry(nonce), map[], map[]), BindSession(sx.sessionId, sx.binding, false), BindSession(sy.sessionId, sy.binding, false);
    RunsJoin(s, [a], [b]);
    RunOfOne(s, a);
    RunOfOne(Next(s, a), b);
    hide Run;
    assert Scope(sx.sessionId, sx.binding, 1) == sx && Scope(sy.sessionId, sy.binding, 1) == sy;
    assert map[][sx.sessionId := sx][sy.sessionId := sy] == map[sx.sessionId := sx, sy.sessionId := sy];
  }

  function StepsToX(sx: Scope, sy: Scope): seq<Step> {
    Binding2(sx, sy) + Referencing(0, sx, "post:1")
  }

  function StepsToY(sx: Scope, sy: Scope): seq<Step> {
    StepsToX(sx, sy) + Referencing(1, sy, "post:2")
  }

  lemma BeforeYIsRun(nonce: string, sx: Scope, sy: Scope)
    requires AreTwo(sx, sy)
    ensures
      var s := Run(System(EmptyRegistry(nonce), map[], map[]), StepsToX(sx, sy));
      s.reg == BeforeY(nonce, sx, sy) && s.batches.Keys == {0}
  {
    var s0 := System(EmptyRegistry(nonce), map[], map[]);
    BindingBinds(nonce, sx, sy);
    RunsJoin(s0, Binding2(sx, sy), Referencing(0, sx, "post:1"));
    hide Run, Referencing;
    ReferencingReferences(System(BothBound(nonce, sx, sy), map[], map[]), 0, sx, "post:1");
  }

  lemma TwoSessionsIsRun(nonce: string, sx: Scope, sy: Scope)
    requires AreTwo(sx, sy)
    ensures Run(System(EmptyRegistry(nonce), map[], map[]), StepsToY(sx, sy)).reg == TwoSessions(nonce, sx, sy)
  {
    var s0 := System(EmptyRegistry(nonce), map[], map[]);
    BeforeYIsRun(nonce, sx, sy);
    RunsJoin(s0, StepsToX(sx, sy), Referencing(1, sy, "post:2"));
    var s := Run(s0, StepsToX(sx, sy));
    assert ObjectKey(sy.sessionId, sy.generation, Post, "post:2") !in s.reg.byObject;
    hide Run, Referencing, StepsToX;
    ReferencingReferences(s, 1, sy, "post:2");
  }

  /** Both registries, and one with a further comment cursor of y, are reached by ordinary calls. */
  lemma TwoSessionsAreReached(nonce: string, sx: Scope, sy: Scope, postId: string, order: Digest, next: nat)
    requires AreTwo(sx, sy)
    ensures IsReached(nonce, BeforeY(nonce, sx, sy)) && IsReached(nonce, TwoSessions(nonce, sx, sy))
    ensures IsReached(nonce, IssueCommentCursor(TwoSessions(nonce, sx, sy), sy, postId, order, next).0)
  {
    BeforeYIsRun(nonce, sx, sy);
    TwoSessionsIsRun(nonce, sx, sy);
    var s0, step := System(EmptyRegistry(nonce), map[], map[]), IssueComments(sy.sessionId, postId, order, next);
    var s := Run(s0, StepsToY(sx, sy));
    RunsJoin(s0, StepsToY(sx, sy), [step]);
    RunOfOne(s, step);
    assert s.reg.scopes[sy.sessionId] == sy;
    hide Run, StepsToX, StepsToY;
    assert Run(s0, StepsToY(sx, sy) + [step]).reg == IssueCommentCursor(TwoSessions(nonce, sx, sy), sy, postId, order, next).0;
  }

  function DumpOfX(nonce: string, sx: Scope, counter: nat): Dump {
    Dump(nonce, counter, [sx], [PostRecord(Token("p", 1, nonce), sx, "post:1")], [], [])
  }

  lemma DumpOfXIsDump(nonce: string, sx: Scope, sy: Scope)
    requires AreTwo(sx, sy)
    ensures IsDump(BeforeY(nonce, sx, sy), sx.sessionId, DumpOfX(nonce, sx, 1))
    ensures IsDump(TwoSessions(nonce, sx, sy), sx.sessionId, DumpOfX(nonce, sx, 2))
  {
    RecordsOfTwo(nonce, sx, sy);
    var reg, r := BeforeY(nonce, sx, sy), PostRecord(Token("p", 1, nonce), sx, "post:1");
    assert reg.records == map[r.token := r];
    assert RecordToken(r) == r.token && RecordScope(r) == sx;
    assert ListsPart([r], reg.records, RecordToken, RecordScope, sx.sessionId);
    assert forall x: Record :: RecordScope(x) == x.scope;
    assert ListsPart([r], TwoSessions(nonce, sx, sy).records, RecordToken, RecordScope, sx.sessionId);
  }

  lemma RecordsOfTwo(nonce: string, sx: Scope, sy: Scope)
    requires AreTwo(sx, sy)
    ensures Token("p", 1, nonce) != Token("p", 2, nonce)
    ensures TwoSessions(nonce, sx, sy).records ==
      map[Token("p", 1, nonce) := PostRecord(Token("p", 1, nonce), sx, "post:1"),
          Token("p", 2, nonce) := PostRecord(Token("p", 2, nonce), sy, "post:2")]
  {
    if Token("p", 1, nonce) == Token("p", 2, nonce) {
      TokenInjective("p", 1, nonce, "p", 2, nonce);
    }
  }

  /** The next process: x is bound and loaded from what was saved of it. */
  function XRestored(nonce: string, nonce': string, sx: Scope, counter: nat): Registry
    requires sx.generation == 1
  {
    Load(FreshlyBound(nonce', sx.sessionId, sx.binding), sx.sessionId, DumpOfX(nonce, sx, counter)).value
  }

  lemma XRestoredIs(nonce: string, nonce': string, sx: Scope, counter: nat)
    requires sx.generation == 1
    ensures Load(FreshlyBound(nonce', sx.sessionId, sx.binding), sx.sessionId, DumpOfX(nonce, sx, counter)).Ok?
    ensures
      var reg, r := XRestored(nonce, nonce', sx, counter), PostRecord(Token("p", 1, nonce), sx, "post:1");
      && reg.nonce == nonce && reg.counter == counter && reg.scopes == map[sx.sessionId := sx] && reg.records == map[r.token := r]
      && reg.commentCursors == map[] && reg.searchCursors == map[]
  {
    var bare := FreshlyBound(nonce', sx.sessionId, sx.binding);
    assert bare.scopes[sx.sessionId := sx] == map[sx.sessionId := sx];
    assert UpdateAll(map[], DumpOfX(nonce, sx, counter).records, RecordToken)
        == map[Token("p", 1, nonce) := PostRecord(Token("p", 1, nonce), sx, "post:1")];
  }

  function DumpOfY(nonce: string, sy: Scope): Dump {
    Dump(nonce, 2, [sy], [PostRecord(Token("p", 2, nonce), sy, "post:2")], [], [])
  }

  lemma DumpOfYIsDump(nonce: string, sx: Scope, sy: Scope)
    requires AreTwo(sx, sy)
    ensures IsDump(TwoSessions(nonce, sx, sy), sy.sessionId, DumpOfY(nonce, sy))
  {
    RecordsOfTwo(nonce, sx, sy);
    var r2 := PostRecord(Token("p", 2, nonce), sy, "post:2");
    assert forall x: Record :: RecordScope(x) == x.scope && RecordToken(x) == x.token;
    assert ListsPart([r2], TwoSessions(nonce, sx, sy).records, RecordToken, RecordScope, sy.sessionId);
  }

  /** The session is bound in the running process and its saved state loaded. */
  function BoundAndLoaded(reg: Registry, sy: Scope, d: Dump): Result<Registry>
    requires sy.sessionId != ""
  {
    Load(Bind(reg, sy.sessionId, sy.binding, false).value, sy.sessionId, d)
  }

  /**
    Two sessions share a service; the first is saved before the second gets its reference. In the
    next process the first session is handed the second one's token again, and loses that
    reference when the second session is bound and loaded.
  */
  lemma SharedCounterCollision(nonce: string, nonce': string, sx: Scope, sy: Scope)
    requires AreTwo(sx, sy)
    ensures IsReached(nonce, BeforeY(nonce, sx, sy)) && IsDump(BeforeY(nonce, sx, sy), sx.sessionId, DumpOfX(nonce, sx, 1))
    ensures IsReached(nonce, TwoSessions(nonce, sx, sy)) && IsDump(TwoSessions(nonce, sx, sy), sy.sessionId, DumpOfY(nonce, sy))
    ensures
      var before := WithReference(XRestored(nonce, nonce', sx, 1), sx, "post:3");
      var loaded := BoundAndLoaded(before, sy, DumpOfY(nonce, sy));
      && loaded.Ok?
      && Resolve(before, sx.sessionId, Token("p", 2, nonce), Some(Post)).Ok?
      && Resolve(loaded.value, sx.sessionId, Token("p", 2, nonce), Some(Post)) == Err("cross_scope_ref")
  {
    TwoSessionsAreReached(nonce, sx, sy, "", OfIds([]), 0);
    DumpOfXIsDump(nonce, sx, sy);
    DumpOfYIsDump(nonce, sx, sy);
    XRestoredIs(nonce, nonce', sx, 1);
    hide IsReached, XRestored, TwoSessions, BeforeY, IsDump;
    var before, d := WithReference(XRestored(nonce, nonce', sx, 1), sx, "post:3"), DumpOfY(nonce, sy);
    var bound := Bind(before, sy.sessionId, sy.binding, false).value;
    assert bound.scopes[sy.sessionId] == sy;
    assert UpdateAll(bound.records, d.records, RecordToken) == bound.records[Token("p", 2, nonce) := d.records[0]];
  }

  function PagingCursor(token: string, scope: Scope, postId: string, order: Digest, next: nat): CommentCursor {
    CommentCursor(token, scope, postId, order, next, "list_post_risk_comments", "post_risk_comment_directory")
  }

  function DumpOfPagingY(nonce: string, sy: Scope, order: Digest, next: nat): Dump {
    Dump(nonce, 3, [sy], [PostRecord(Token("p", 2, nonce), sy, "post:2")], [],
         [PagingCursor(Token("q", 3, nonce), sy, "post:2", order, next)])
  }

  lemma DumpOfPagingYIsDump(nonce: string, sx: Scope, sy: Scope, order: Digest, next: nat)
    requires AreTwo(sx, sy)
    ensures IsDump(IssueCommentCursor(TwoSessions(nonce, sx, sy), sy, "post:2", order, next).0, sy.sessionId, DumpOfPagingY(nonce, sy, order, next))
  {
    DumpOfYIsDump(nonce, sx, sy);
    RecordsOfTwo(nonce, sx, sy);
    var reg, c := IssueCommentCursor(TwoSessions(nonce, sx, sy), sy, "post:2", order, next).0, PagingCursor(Token("q", 3, nonce), sy, "post:2", order, next);
    assert reg.commentCursors == map[Token("q", 3, nonce) := c];
    assert CommentCursorToken(c) == c.token && CommentCursorScope(c) == sy;
    assert ListsPart([c], reg.commentCursors, CommentCursorToken, CommentCursorScope, sy.sessionId);
  }

  /** What loading y does to x after x was handed y's cursor. */
  ghost predicate CursorIsTaken(before: Registry, token: string, sx: Scope, sy: Scope, d: Dump, postId: string, order: Digest)
    requires sy.sessionId != ""
  {
    var loaded := BoundAndLoaded(before, sy, d);
    && loaded.Ok?
    && ResolveCommentCursor(before, sx.sessionId, token, postId, order).Ok?
    && ResolveCommentCursor(loaded.value, sx.sessionId, token, postId, order) == Err("cross_scope_cursor")
    && forall t, expected :: Resolve(before, sx.sessionId, t, expected).Ok? ==>
         Resolve(loaded.value, sx.sessionId, t, expected) == Resolve(before, sx.sessionId, t, expected)
  }

  lemma LoadedPaging(nonce: string, sx: Scope, sy: Scope, before: Registry, d: Dump, order: Digest, next: nat)
    requires AreTwo(sx, sy) && before.scopes == map[sx.sessionId := sx] && d == DumpOfPagingY(nonce, sy, order, next)
    ensures
      var loaded := BoundAndLoaded(before, sy, d);
      && loaded.Ok? && loaded.value.scopes == map[sx.sessionId := sx, sy.sessionId := sy]
      && loaded.value.records == before.records[Token("p", 2, nonce) := d.records[0]]
      && loaded.value.commentCursors == before.commentCursors[Token("q", 3, nonce) := d.commentCursors[0]]
  {
    var bound := Bind(before, sy.sessionId, sy.binding, false).value;
    assert bound.scopes[sy.sessionId] == sy;
    assert bound.scopes[sy.sessionId := sy] == map[sx.sessionId := sx, sy.sessionId := sy];
    assert UpdateAll(bound.records, d.records, RecordToken) == bound.records[Token("p", 2, nonce) := d.records[0]];
    assert UpdateAll(bound.commentCursors, d.commentCursors, CommentCursorToken) == bound.commentCursors[Token("q", 3, nonce) := d.commentCursors[0]];
  }

  lemma XLosesItsCursor(nonce: string, nonce': string, sx: Scope, sy: Scope, orderX: Digest, nextX: nat, orderY: Digest, nextY: nat)
    requires AreTwo(sx, sy)
    ensures
      var (before, token) := IssueCommentCursor(XRestored(nonce, nonce', sx, 2), sx, "post:1", orderX, nextX);
      CursorIsTaken(before, token, sx, sy, DumpOfPagingY(nonce, sy, orderY, nextY), "post:1", orderX)
  {
    XRestoredIs(nonce, nonce', sx, 2);
    RecordsOfTwo(nonce, sx, sy);
    var (before, token) := IssueCommentCursor(XRestored(nonce, nonce', sx, 2), sx, "post:1", orderX, nextX);
    LoadedPaging(nonce, sx, sy, before, DumpOfPagingY(nonce, sy, orderY, nextY), orderY, nextY);
    hide XRestored, TwoSessions, BoundAndLoaded;
  }

  /**
    The same with cursors alone: both sessions were saved with their references, then y paged through
    comments. In the next process x pages and is handed y's cursor; loading y takes it from x, while
    every reference of x keeps working.
  */
  lemma SharedCursorCollision(nonce: string, nonce': string, sx: Scope, sy: Scope, orderX: Digest, nextX: nat, orderY: Digest, nextY: nat)
    requires AreTwo(sx, sy)
    ensures
      var paging := IssueCommentCursor(TwoSessions(nonce, sx, sy), sy, "post:2", orderY, nextY).0;
      && IsReached(nonce, TwoSessions(nonce, sx, sy)) && IsDump(TwoSessions(nonce, sx, sy), sx.sessionId, DumpOfX(nonce, sx, 2))
      && IsReached(nonce, paging) && IsDump(paging, sy.sessionId, DumpOfPagingY(nonce, sy, orderY, nextY))
    ensures
      var (before, token) := IssueCommentCursor(XRestored(nonce, nonce', sx, 2), sx, "post:1", orderX, nextX);
      CursorIsTaken(before, token, sx, sy, DumpOfPagingY(nonce, sy, orderY, nextY), "post:1", orderX)
  {
    hide IsReached, XRestored, TwoSessions, IsDump, CursorIsTaken;
    TwoSessionsAreReached(nonce, sx, sy, "post:2", orderY, nextY);
    DumpOfXIsDump(nonce, sx, sy);
    DumpOfPagingYIsDump(nonce, sx, sy, orderY, nextY);
    XLosesItsCursor(nonce, nonce', sx, sy, orderX, nextX, orderY, nextY);
  }

  // ---- adopting a token of an old transcript ----

  function Union(a: seq<Origin>, b: seq<Origin>): seq<Origin>
    decreases |b|
  {
    if b == [] then a else Union(if b[0] in a then a else a + [b[0]], b[1..])
  }

  /** The union has the origins of both, the old ones first. */
  lemma {:induction false} UnionHas(a: seq<Origin>, b: seq<Origin>)
    ensures a <= Union(a, b)
    ensures forall o :: o in Union(a, b) <==> o in a || o in b
    decreases |b|
  {
    if b != [] {
      var more := if b[0] in a then a else a + [b[0]];
      UnionHas(more, b[1..]);
      assert b == [b[0]] + b[1..] && a <= more;
    }
  }

  /** The end of `restore_legacy_transcript`: an old token becomes a second name of a verified record. */
  function AdoptAlias(reg: Registry, oldToken: string, record: Record): Result<Registry> {
    var alias := record.(token := oldToken);
    if oldToken !in reg.records then Ok(reg.(records := reg.records[oldToken := alias]))
    else
      var existing := reg.records[oldToken];
      if existing.(origins := alias.origins) == alias
      then Ok(reg.(records := reg.records[oldToken := alias.(origins := Union(existing.origins, alias.origins))]))
      else Err("conflicting_legacy_identity")
  }

  lemma AddRecordKeepsValid(reg: Registry, r: Record)
    requires Valid(reg) && Known(reg, r.scope)
    requires r.token in reg.records ==> IdentityOf(reg.records[r.token]) == IdentityOf(r)
    ensures Valid(reg.(records := reg.records[r.token := r])) && Grows(reg, reg.(records := reg.records[r.token := r]))
  {
    var reg' := reg.(records := reg.records[r.token := r]);
    assert forall scope :: Known(reg, scope) ==> Known(reg', scope);
    assert RecordsOk(reg') && ByObjectOk(reg') && CursorsOk(reg');
  }

  /**
    Adoption is refused exactly when the old token already names another object; otherwise the
    registry stays valid and nothing that resolved before changes its target.
  */
  lemma AliasKeepsValid(reg: Registry, oldToken: string, record: Record)
    requires Valid(reg) && Known(reg, record.scope)
    requires oldToken in reg.records ==> reg.records[oldToken].token == oldToken
    ensures AdoptAlias(reg, oldToken, record).Ok? <==>
      (oldToken in reg.records ==> IdentityOf(reg.records[oldToken]) == IdentityOf(record))
    ensures AdoptAlias(reg, oldToken, record).Ok? ==>
      var reg' := AdoptAlias(reg, oldToken, record).value;
      && Valid(reg') && Grows(reg, reg') && reg'.records.Keys == reg.records.Keys + {oldToken}
      && IdentityOf(reg'.records[oldToken]) == IdentityOf(record)
      && reg'.scopes == reg.scopes
  {
    if AdoptAlias(reg, oldToken, record).Ok? {
      var reg' := AdoptAlias(reg, oldToken, record).value;
      assert reg' == reg.(records := reg.records[oldToken := reg'.records[oldToken]]);
      AddRecordKeepsValid(reg, reg'.records[oldToken]);
    }
  }

  /** An adopted alias resolves like the token it was matched with. */
  lemma AliasResolvesAlike(reg: Registry, oldToken: string, token: string, sessionId: string, expected: Option<Kind>)
    requires Valid(reg) && token in reg.records && AdoptAlias(reg, oldToken, reg.records[token]).Ok?
    ensures
      var reg' := AdoptAlias(reg, oldToken, reg.records[token]).value;
      && Resolve(reg', sessionId, oldToken, expected).Ok? == Resolve(reg, sessionId, token, expected).Ok?
      && (Resolve(reg, sessionId, token, expected).Ok? ==>
            IdentityOf(Resolve(reg', sessionId, oldToken, expected).value)
              == IdentityOf(Resolve(reg, sessionId, token, expected).value))
  {
    AliasKeepsValid(reg, oldToken, reg.records[token]);
  }

  datatype Pair = Pair(oldToken: string, token: string)

  /** What a token of the fresh result stands for. */
  datatype Target = ToRecord(record: Record) | ToSearch(search: Cursor) | ToComments(comments: CommentCursor)

  function TargetScope(t: Target): Scope {
    match t
    case ToRecord(r) => r.scope
    case ToSearch(c) => c.scope
    case ToComments(c) => c.scope
  }

  /** The token is not taken among those of this sort. */
  predicate Free(reg: Registry, token: string, t: Target) {
    match t
    case ToRecord(_) => token !in reg.records
    case ToSearch(_) => token !in reg.searchCursors
    case ToComments(_) => token !in reg.commentCursors
  }

  /** The token stands for the target. */
  predicate StandsFor(reg: Registry, token: string, t: Target) {
    match t
    case ToRecord(r) => token in reg.records && IdentityOf(reg.records[token]) == IdentityOf(r)
    case ToSearch(c) => token in reg.searchCursors && reg.searchCursors[token] == c.(token := token)
    case ToComments(c) => token in reg.commentCursors && reg.commentCursors[token] == c.(token := token)
  }

  /** The body of the loop over the proposed pairs; cursors have no origins, so an existing one must be the alias. */
  function Adopt(reg: Registry, oldToken: string, t: Target): Result<Registry> {
    match t
    case ToRecord(r) => AdoptAlias(reg, oldToken, r)
    case ToSearch(c) =>
      var alias := c.(token := oldToken);
      if oldToken in reg.searchCursors && reg.searchCursors[oldToken] != alias then Err("conflicting_legacy_identity")
      else Ok(reg.(searchCursors := reg.searchCursors[oldToken := alias]))
    case ToComments(c) =>
      var alias := c.(token := oldToken);
      if oldToken in reg.commentCursors && reg.commentCursors[oldToken] != alias then Err("conflicting_legacy_identity")
      else Ok(reg.(commentCursors := reg.commentCursors[oldToken := alias]))
  }

  /** The loop over the proposed pairs of one verified result, with the targets as they were before it. */
  function AdoptAll(reg: Registry, tokens: map<string, Target>, proposed: seq<Pair>): Result<Registry>
    requires forall x <- proposed :: x.token in tokens
    decreases |proposed|
  {
    if proposed == [] then Ok(reg)
    else
      assert proposed[0] in proposed && forall x <- proposed[1..] :: x in proposed;
      var adopted := Adopt(reg, proposed[0].oldToken, tokens[proposed[0].token]);
      if adopted.Err? then adopted else AdoptAll(adopted.value, tokens, proposed[1..])
  }

  ghost predicate Distinct(proposed: seq<Pair>) {
    forall i, j | 0 <= i < j < |proposed| :: proposed[i].oldToken != proposed[j].oldToken
  }

  ghost predicate Compatible(reg: Registry, tokens: map<string, Target>, proposed: seq<Pair>) {
    forall x <- proposed :: x.token in tokens
      && (Free(reg, x.oldToken, tokens[x.token]) || StandsFor(reg, x.oldToken, tokens[x.token]))
  }

  ghost predicate Adopted(reg: Registry, tokens: map<string, Target>, proposed: seq<Pair>) {
    forall x <- proposed :: x.token in tokens && StandsFor(reg, x.oldToken, tokens[x.token])
  }

  /** What one adoption leaves as it was. */
  ghost predicate OthersKept(reg: Registry, reg': Registry, oldToken: string) {
    forall token, t | token != oldToken ::
      (Free(reg', token, t) <==> Free(reg, token, t)) && (StandsFor(reg', token, t) <==> StandsFor(reg, token, t))
  }

  lemma AdoptSearchIff(reg: Registry, oldToken: string, c: Cursor)
    requires Valid(reg) && Known(reg, c.scope)
    ensures Adopt(reg, oldToken, ToSearch(c)).Ok? <==> Free(reg, oldToken, ToSearch(c)) || StandsFor(reg, oldToken, ToSearch(c))
    ensures Adopt(reg, oldToken, ToSearch(c)).Ok? ==>
      var reg' := Adopt(reg, oldToken, ToSearch(c)).value;
      Valid(reg') && Grows(reg, reg') && reg'.scopes == reg.scopes && StandsFor(reg', oldToken, ToSearch(c))
  {
    if Adopt(reg, oldToken, ToSearch(c)).Ok? {
      var reg' := Adopt(reg, oldToken, ToSearch(c)).value;
      assert forall scope :: Known(reg, scope) <==> Known(reg', scope);
      assert RecordsOk(reg') && ByObjectOk(reg') && CursorsOk(reg');
    }
  }

  lemma AdoptCommentsIff(reg: Registry, oldToken: string, c: CommentCursor)
    requires Valid(reg) && Known(reg, c.scope)
    ensures Adopt(reg, oldToken, ToComments(c)).Ok? <==> Free(reg, oldToken, ToComments(c)) || StandsFor(reg, oldToken, ToComments(c))
    ensures Adopt(reg, oldToken, ToComments(c)).Ok? ==>
      var reg' := Adopt(reg, oldToken, ToComments(c)).value;
      Valid(reg') && Grows(reg, reg') && reg'.scopes == reg.scopes && StandsFor(reg', oldToken, ToComments(c))
  {
    if Adopt(reg, oldToken, ToComments(c)).Ok? {
      var reg' := Adopt(reg, oldToken, ToComments(c)).value;
      assert forall scope :: Known(reg, scope) <==> Known(reg', scope);
      assert RecordsOk(reg') && ByObjectOk(reg') && CursorsOk(reg');
    }
  }

  lemma AdoptKeepsOthers(reg: Registry, oldToken: string, t: Target)
    requires Adopt(reg, oldToken, t).Ok?
    ensures OthersKept(reg, Adopt(reg, oldToken, t).value, oldToken)
  {
    hide Union;
  }

  lemma AdoptRecordIff(reg: Registry, oldToken: string, r: Record)
    requires Valid(reg) && Known(reg, r.scope)
    ensures Adopt(reg, oldToken, ToRecord(r)).Ok? <==> Free(reg, oldToken, ToRecord(r)) || StandsFor(reg, oldToken, ToRecord(r))
    ensures Adopt(reg, oldToken, ToRecord(r)).Ok? ==>
      var reg' := Adopt(reg, oldToken, ToRecord(r)).value;
      Valid(reg') && Grows(reg, reg') && reg'.scopes == reg.scopes && StandsFor(reg', oldToken, ToRecord(r))
  {
    hide Valid, Grows, Known, AdoptAlias;
    KeyedByToken(reg, oldToken);
    AliasKeepsValid(reg, oldToken, r);
  }

  /** One pair is adopted exactly when the old token is free or already stands for the target. */
  lemma AdoptIff(reg: Registry, oldToken: string, t: Target)
    requires Valid(reg) && Known(reg, TargetScope(t))
    ensures Adopt(reg, oldToken, t).Ok? <==> Free(reg, oldToken, t) || StandsFor(reg, oldToken, t)
    ensures Adopt(reg, oldToken, t).Ok? ==>
      var reg' := Adopt(reg, oldToken, t).value;
      && Valid(reg') && Grows(reg, reg') && StandsFor(reg', oldToken, t)
      && reg'.scopes == reg.scopes && OthersKept(reg, reg', oldToken)
  {
    hide Valid, Grows, Known, Adopt, Free, StandsFor, OthersKept;
    match t {
      case ToRecord(r) => AdoptRecordIff(reg, oldToken, r);
      case ToSearch(c) => AdoptSearchIff(reg, oldToken, c);
      case ToComments(c) => AdoptCommentsIff(reg, oldToken, c);
    }
    if Adopt(reg, oldToken, t).Ok? {
      AdoptKeepsOthers(reg, oldToken, t);
    }
  }

  /**
    All pairs of one verified result are adopted exactly when no old token already stands for
    something else; then every old reference or cursor stands for what its fresh one stands for.
  */
  lemma {:induction false} AdoptAllIff(reg: Registry, tokens: map<string, Target>, proposed: seq<Pair>)
    requires Valid(reg) && Distinct(proposed)
    requires forall x <- proposed :: x.token in tokens
    requires forall t <- tokens :: Known(reg, TargetScope(tokens[t]))
    ensures AdoptAll(reg, tokens, proposed).Ok? <==> Compatible(reg, tokens, proposed)
    ensures AdoptAll(reg, tokens, proposed).Ok? ==>
      var reg' := AdoptAll(reg, tokens, proposed).value;
      Valid(reg') && Grows(reg, reg') && reg'.scopes == reg.scopes && Adopted(reg', tokens, proposed)
    decreases |proposed|
  {
    hide Valid, Adopt, Grows, Known, Adopted, Distinct, Compatible, OthersKept, Free, StandsFor;
    if proposed != [] {
      var x, rest := proposed[0], proposed[1..];
      assert x in proposed && forall y <- rest :: y in proposed;
      AdoptIff(reg, x.oldToken, tokens[x.token]);
      var adopted := Adopt(reg, x.oldToken, tokens[x.token]);
      if Compatible(reg, tokens, proposed) {
        FirstIsCompatible(reg, tokens, proposed);
      }
      if adopted.Ok? {
        var reg1 := adopted.value;
        forall t | t in tokens ensures Known(reg1, TargetScope(tokens[t])) {
          KnownKept(reg, reg1, TargetScope(tokens[t]));
        }
        OthersDiffer(proposed);
        OneAdopted(reg, reg1, tokens, proposed);
        AdoptAllIff(reg1, tokens, rest);
        if AdoptAll(reg1, tokens, rest).Ok? {
          var reg2 := AdoptAll(reg1, tokens, rest).value;
          AllAdopted(reg1, reg2, tokens, proposed);
          GrowsTransitive(reg, reg1, reg2);
        }
      }
    } else {
      NothingAdopted(reg, tokens);
    }
  }

  lemma NothingAdopted(reg: Registry, tokens: map<string, Target>)
    ensures Compatible(reg, tokens, []) && Adopted(reg, tokens, []) && Grows(reg, reg)
  {
  }

  lemma FirstIsCompatible(reg: Registry, tokens: map<string, Target>, proposed: seq<Pair>)
    requires proposed != [] && proposed[0].token in tokens && Compatible(reg, tokens, proposed)
    ensures Free(reg, proposed[0].oldToken, tokens[proposed[0].token]) || StandsFor(reg, proposed[0].oldToken, tokens[proposed[0].token])
  {
    assert proposed[0] in proposed;
  }

  lemma KnownKept(reg: Registry, reg1: Registry, scope: Scope)
    requires Known(reg, scope) && reg1.scopes == reg.scopes
    ensures Known(reg1, scope)
  {
  }

  lemma OthersDiffer(proposed: seq<Pair>)
    requires proposed != [] && Distinct(proposed)
    ensures Distinct(proposed[1..])
    ensures forall y <- proposed[1..] :: y.oldToken != proposed[0].oldToken
  {
    forall y | y in proposed[1..] ensures y.oldToken != proposed[0].oldToken {
      var j :| 0 <= j < |proposed[1..]| && proposed[1..][j] == y;
      assert proposed[j + 1] == y;
    }
  }

  lemma OneAdopted(reg: Registry, reg1: Registry, tokens: map<string, Target>, proposed: seq<Pair>)
    requires proposed != [] && proposed[0].token in tokens && OthersKept(reg, reg1, proposed[0].oldToken)
    requires Free(reg, proposed[0].oldToken, tokens[proposed[0].token]) || StandsFor(reg, proposed[0].oldToken, tokens[proposed[0].token])
    requires forall y <- proposed[1..] :: y.oldToken != proposed[0].oldToken
    ensures Compatible(reg1, tokens, proposed[1..]) <==> Compatible(reg, tokens, proposed)
  {
    hide Free, StandsFor;
    assert proposed == [proposed[0]] + proposed[1..];
  }

  lemma StandsStill(reg1: Registry, reg2: Registry, token: string, t: Target)
    requires Grows(reg1, reg2) && StandsFor(reg1, token, t)
    ensures StandsFor(reg2, token, t)
  {
  }

  lemma AllAdopted(reg1: Registry, reg2: Registry, tokens: map<string, Target>, proposed: seq<Pair>)
    requires proposed != [] && Grows(reg1, reg2) && proposed[0].token in tokens
    requires StandsFor(reg1, proposed[0].oldToken, tokens[proposed[0].token]) && Adopted(reg2, tokens, proposed[1..])
    ensures Adopted(reg2, tokens, proposed)
  {
    hide Grows, StandsFor;
    StandsStill(reg1, reg2, proposed[0].oldToken, tokens[proposed[0].token]);
    assert proposed == [proposed[0]] + proposed[1..];
  }

  lemma KeyedByToken(reg: Registry, token: string)
    requires Valid(reg)
    ensures token in reg.records ==> reg.records[token].token == token
  {
  }

  /** After adoption two tokens name one object, so a later load may index either of them. */
  lemma AliasBreaksUniqueness(reg: Registry, oldToken: string, token: string)
    requires Valid(reg) && OneTokenPerObject(reg) && token in reg.records && oldToken !in reg.records
    ensures !OneTokenPerObject(AdoptAlias(reg, oldToken, reg.records[token]).value)
  {
    var reg' := AdoptAlias(reg, oldToken, reg.records[token]).value;
    assert reg'.byObject[KeyOf(reg'.records[oldToken])] == token;
  }

  // ---- the loops themselves ----

  method UpdateInPlace<T>(m: map<string, T>, items: seq<T>, tokenOf: T -> string) returns (u: map<string, T>)
    ensures u == UpdateAll(m, items, tokenOf)
  {
    u := m;
    for i := 0 to |items|
      invariant UpdateAll(u, items[i..], tokenOf) == UpdateAll(m, items, tokenOf)
    {
      assert items[i..][1..] == items[i + 1..];
      u := u[tokenOf(items[i]) := items[i]];
    }
  }

  method LoadState(registry: ReferenceRegistry, sessionId: string, d: Dump) returns (outcome: Result<()>)
    requires sessionId in registry.scopes
    modifies registry
    ensures
      var spec := Load(old(registry.View()), sessionId, d);
      && outcome == (if spec.Ok? then Ok(()) else Err(spec.code))
      && registry.View() == (if spec.Ok? then spec.value else old(registry.View()))
  {
    var current := registry.scopes[sessionId];
    if |d.scopes| != 1 || d.scopes[0].sessionId != current.sessionId || d.scopes[0].binding != current.binding {
      return Err("saved_scope_differs");
    }
    if d.scopes[0].sessionId != sessionId || !BelongsTo(d, sessionId) {
      return Err("cross_session_state");
    }
    registry.nonce := d.nonce;
    registry.counter := Max(registry.counter, d.counter);
    registry.scopes := registry.scopes[sessionId := d.scopes[0]];
    registry.records := UpdateInPlace(registry.records, d.records, RecordToken);
    registry.searchCursors := UpdateInPlace(registry.searchCursors, d.searchCursors, CursorToken);
    registry.commentCursors := UpdateInPlace(registry.commentCursors, d.commentCursors, CommentCursorToken);
    var byObject := registry.byObject;
    for i := 0 to |d.records|
      invariant RebuildByObject(byObject, d.records[i..]) == RebuildByObject(old(registry.byObject), d.records)
    {
      assert d.records[i..][1..] == d.records[i + 1..];
      byObject := byObject[KeyOf(d.records[i]) := d.records[i].token];
    }
    registry.byObject := byObject;
    return Ok(());
  }

  method ListSession<T(!new)>(m: map<string, T>, tokenOf: T -> string, scopeOf: T -> Scope, sessionId: string)
    returns (items: seq<T>)
    requires forall t <- m :: tokenOf(m[t]) == t
    ensures ListsPart(items, m, tokenOf, scopeOf, sessionId)
  {
    items := [];
    var todo := m.Keys;
    while todo != {}
      invariant todo <= m.Keys
      invariant forall x <- items :: tokenOf(x) in m && m[tokenOf(x)] == x && scopeOf(x).sessionId == sessionId
      invariant forall t <- m :: t !in todo && scopeOf(m[t]).sessionId == sessionId ==> m[t] in items
      decreases |todo|
    {
      var t :| t in todo;
      if scopeOf(m[t]).sessionId == sessionId {
        items := items + [m[t]];
      }
      todo := todo - {t};
    }
  }

  /** Every dictionary is keyed by the token of its entry. */
  ghost predicate Keyed(reg: Registry) {
    && (forall t <- reg.records :: RecordToken(reg.records[t]) == t)
    && (forall t <- reg.searchCursors :: CursorToken(reg.searchCursors[t]) == t)
    && (forall t <- reg.commentCursors :: CommentCursorToken(reg.commentCursors[t]) == t)
  }

  method DumpState(registry: ReferenceRegistry, sessionId: string) returns (d: Dump)
    requires Keyed(registry.View()) && sessionId in registry.scopes
    ensures IsDump(registry.View(), sessionId, d)
  {
    var records := ListSession(registry.records, RecordToken, RecordScope, sessionId);
    var searchCursors := ListSession(registry.searchCursors, CursorToken, CursorScope, sessionId);
    var commentCursors := ListSession(registry.commentCursors, CommentCursorToken, CommentCursorScope, sessionId);
    d := Dump(registry.nonce, registry.counter, [registry.scopes[sessionId]], records, searchCursors, commentCursors);
  }
}
