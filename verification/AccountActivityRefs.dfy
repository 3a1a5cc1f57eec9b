/**
  The session references of the account tools (`account_activity_refs.py`): published at once,
  gathering the origins under which they were shown, and bound to one corpus revision.
*/
module AccountActivityRefs {
  import opened Wrappers
  import opened Tokens
  import R = ReportTaskRefs

  datatype Kind = Account | Occurrence | CommentTarget | Post | Report

  datatype Origin = Origin(sourceTool: string, contentState: string)

  datatype Scope = Scope(sessionId: string, binding: R.Binding, generation: nat)

  /** The object a reference stands for, as its registry keys it. */
  datatype ObjectKey = ObjectKey(sessionId: string, generation: nat, kind: Kind, objectId: string,
                                 parentAccount: Option<string>, revision: string)

  datatype Record = Record(token: string, key: ObjectKey, first: Origin, origins: seq<Origin>)

  /** Whose activities a page lists: an account's, or those of a query over reports (its digest, read as the query). */
  datatype Subject = OfAccount(id: string) | OfReports(tasks: seq<string>, role: string)

  /** What a page belongs to; the digest of the ordered ids is read as the ids. */
  datatype Query = Query(subject: Subject, kind: string, target: Option<string>, riskFilter: Option<string>,
                         revision: string)

  datatype Cursor = Cursor(token: string, sessionId: string, generation: nat, query: Query, order: seq<string>,
                           nextOffset: nat)

  datatype Registry = Registry(nonce: string, counter: nat, scopes: map<string, Scope>,
                               records: map<string, Record>, byObject: map<ObjectKey, string>,
                               cursors: map<string, Cursor>)

  function Prefix(kind: Kind): (p: string)
    ensures IsPrefix(p)
  {
    match kind
    case Account => "account"
    case Occurrence => "activity"
    case CommentTarget => "target"
    case Post => "post"
    case Report => "report"
  }

  // ---- the operations ----

  function Bind(reg: Registry, sessionId: string, binding: R.Binding, forceNewGeneration: bool): Result<Registry> {
    if sessionId == "" then Err("scope_unbound")
    else if sessionId in reg.scopes && reg.scopes[sessionId].binding == binding && !forceNewGeneration then Ok(reg)
    else
      var generation := if sessionId in reg.scopes then reg.scopes[sessionId].generation + 1 else 1;
      Ok(reg.(scopes := reg.scopes[sessionId := Scope(sessionId, binding, generation)]))
  }

  function KeyFor(scope: Scope, kind: Kind, objectId: string, parentAccount: Option<string>, revision: string): ObjectKey {
    ObjectKey(scope.sessionId, scope.generation, kind, objectId, parentAccount, revision)
  }

  /** `expose`, for a key of the session's current generation. */
  function Expose(reg: Registry, key: ObjectKey, origin: Origin): (Registry, Result<string>) {
    if key in reg.byObject && reg.byObject[key] in reg.records then
      var token := reg.byObject[key];
      var existing := reg.records[token];
      if existing.key.parentAccount != key.parentAccount then (reg, Err("wrong_parent_ref"))
      else if origin in existing.origins then (reg, Ok(token))
      else (reg.(records := reg.records[token := existing.(origins := existing.origins + [origin])]), Ok(token))
    else
      var token := Token(Prefix(key.kind), reg.counter + 1, reg.nonce);
      (reg.(counter := reg.counter + 1,
            records := reg.records[token := Record(token, key, origin, [origin])],
            byObject := reg.byObject[key := token]),
       Ok(token))
  }

  function Resolve(reg: Registry, sessionId: string, token: string, expected: Kind, revision: string,
                   sourceTool: Option<string>, contentState: Option<string>): Result<Record>
  {
    if sessionId !in reg.scopes then Err("investigation_scope_unbound")
    else if token !in reg.records then Err("unknown_ref")
    else
      var r := reg.records[token];
      if r.key.sessionId != sessionId then Err("cross_scope_ref")
      else if r.key.generation != reg.scopes[sessionId].generation then Err("stale_revision_ref")
      else if r.key.kind != expected then Err("wrong_ref_type")
      else if r.key.revision != revision then Err("stale_account_data")
      else if sourceTool.Some? && r.first.sourceTool != sourceTool.value then Err("wrong_ref_source")
      else if contentState.Some? && r.first.contentState != contentState.value then Err("wrong_content_state")
      else Ok(r)
  }

  function IssueCursor(reg: Registry, scope: Scope, query: Query, order: seq<string>, nextOffset: nat): (Registry, string) {
    var token := Token("page", reg.counter + 1, reg.nonce);
    (reg.(counter := reg.counter + 1,
          cursors := reg.cursors[token := Cursor(token, scope.sessionId, scope.generation, query, order, nextOffset)]),
     token)
  }

  function ResolveCursor(reg: Registry, sessionId: string, token: string, query: Query, order: seq<string>): Result<Cursor> {
    if sessionId !in reg.scopes then Err("investigation_scope_unbound")
    else if token !in reg.cursors then Err("unknown_cursor")
    else
      var c := reg.cursors[token];
      if c.sessionId != sessionId then Err("cross_scope_cursor")
      else if c.generation != reg.scopes[sessionId].generation then Err("stale_revision_cursor")
      else if c.query.revision != query.revision then Err("stale_account_data")
      else if c.query != query then Err("cursor_query_mismatch")
      else if c.order != order then Err("cursor_order_mismatch")
      else Ok(c)
  }

  // ---- runs ----

  datatype Step =
    | BindSession(sessionId: string, binding: R.Binding, forceNewGeneration: bool)
    | ExposeObject(sessionId: string, kind: Kind, objectId: string, parentAccount: Option<string>,
                   revision: string, origin: Origin)
    | IssuePage(sessionId: string, query: Query, order: seq<string>, nextOffset: nat)

  function Next(reg: Registry, step: Step): Registry {
    match step
    case BindSession(sessionId, binding, force) =>
      var bound := Bind(reg, sessionId, binding, force);
      if bound.Ok? then bound.value else reg
    case ExposeObject(sessionId, kind, objectId, parent, revision, origin) =>
      if sessionId in reg.scopes
      then Expose(reg, KeyFor(reg.scopes[sessionId], kind, objectId, parent, revision), origin).0 else reg
    case IssuePage(sessionId, query, order, nextOffset) =>
      if sessionId in reg.scopes
      then IssueCursor(reg, reg.scopes[sessionId], query, order, nextOffset).0 else reg
  }

  function Run(reg: Registry, steps: seq<Step>): Registry
    decreases |steps|
  {
    if steps == [] then reg else Run(Next(reg, steps[0]), steps[1..])
  }

  function EmptyRegistry(nonce: string): Registry {
    Registry(nonce, 0, map[], map[], map[], map[])
  }

  /** The key belongs to a generation that its session has reached. */
  ghost predicate Reached(reg: Registry, sessionId: string, generation: nat) {
    sessionId in reg.scopes && generation <= reg.scopes[sessionId].generation
  }

  ghost predicate RecordOk(reg: Registry, token: string)
    requires token in reg.records
  {
    var r := reg.records[token];
    && r.token == token && r.origins != [] && r.first == r.origins[0]
    && Reached(reg, r.key.sessionId, r.key.generation)
    && r.key in reg.byObject && reg.byObject[r.key] == token
  }

  ghost predicate Valid(reg: Registry) {
    && (forall x <- reg.scopes :: reg.scopes[x].sessionId == x)
    && (forall t <- reg.records :: RecordOk(reg, t))
    && (forall k <- reg.byObject :: reg.byObject[k] in reg.records && reg.records[reg.byObject[k]].key == k)
    && (forall t <- reg.cursors :: reg.cursors[t].token == t && Reached(reg, reg.cursors[t].sessionId, reg.cursors[t].generation))
  }

  ghost predicate Inv(reg: Registry) {
    Valid(reg) && R.Spent(reg.counter, reg.records.Keys + reg.cursors.Keys)
  }

  /** What stays of a reference: its object and its first origin; origins are only added. */
  ghost predicate SameReference(a: Record, b: Record) {
    b.token == a.token && b.key == a.key && b.first == a.first && a.origins <= b.origins
  }

  ghost predicate Grows(a: Registry, b: Registry) {
    && (forall t <- a.records :: t in b.records && SameReference(a.records[t], b.records[t]))
    && (forall k <- a.byObject :: k in b.byObject && b.byObject[k] == a.byObject[k])
    && (forall t <- a.cursors :: t in b.cursors && b.cursors[t] == a.cursors[t])
    && (forall x <- a.scopes :: x in b.scopes && a.scopes[x].generation <= b.scopes[x].generation)
    && a.counter <= b.counter
  }

  lemma GrowsTransitive(a: Registry, b: Registry, c: Registry)
    requires Grows(a, b) && Grows(b, c)
    ensures Grows(a, c)
  {
  }

  lemma NewTokenIsNew(reg: Registry, prefix: string)
    requires Inv(reg) && IsPrefix(prefix)
    ensures
      var token := Token(prefix, reg.counter + 1, reg.nonce);
      && token !in reg.records && token !in reg.cursors
      && R.Spent(reg.counter + 1, reg.records.Keys + reg.cursors.Keys + {token})
  {
    var token, used := Token(prefix, reg.counter + 1, reg.nonce), reg.records.Keys + reg.cursors.Keys;
    forall p, n: nat, x | IsPrefix(p) && Token(p, n, x) in used + {token} ensures n <= reg.counter + 1 {
      if Token(p, n, x) == token {
        TokenInjective(p, n, x, prefix, reg.counter + 1, reg.nonce);
      }
    }
  }

  lemma BindKeepsInv(reg: Registry, sessionId: string, binding: R.Binding, force: bool)
    requires Inv(reg) && Bind(reg, sessionId, binding, force).Ok?
    ensures Inv(Bind(reg, sessionId, binding, force).value) && Grows(reg, Bind(reg, sessionId, binding, force).value)
  {
    hide R.Spent;
    var reg' := Bind(reg, sessionId, binding, force).value;
    BindReaches(reg, sessionId, binding, force);
    hide Bind, Reached;
    forall t | t in reg'.records ensures RecordOk(reg', t) {
      assert RecordOk(reg, t);
    }
    assert reg'.records.Keys + reg'.cursors.Keys == reg.records.Keys + reg.cursors.Keys;
  }

  /** The scope stays exactly if the binding is the same and no new generation is forced; else the next generation opens. */
  lemma BindTells(reg: Registry, sessionId: string, binding: R.Binding, force: bool)
    ensures
      var bound := Bind(reg, sessionId, binding, force);
      && (bound.Ok? <==> sessionId != "")
      && (bound.Ok? ==>
            && sessionId in bound.value.scopes && bound.value == reg.(scopes := reg.scopes[sessionId := bound.value.scopes[sessionId]])
            && var scope := bound.value.scopes[sessionId];
            && scope.binding == binding
            && (sessionId !in reg.scopes ==> scope.generation == 1 && scope.sessionId == sessionId)
            && (sessionId in reg.scopes && reg.scopes[sessionId].binding == binding && !force ==> scope == reg.scopes[sessionId])
            && (sessionId in reg.scopes && (reg.scopes[sessionId].binding != binding || force) ==>
                  scope.generation == reg.scopes[sessionId].generation + 1 && scope.sessionId == sessionId))
  {
    if sessionId != "" && sessionId in reg.scopes && reg.scopes[sessionId].binding == binding && !force {
      assert reg.scopes[sessionId := reg.scopes[sessionId]] == reg.scopes;
    }
  }

  lemma BindReaches(reg: Registry, sessionId: string, binding: R.Binding, force: bool)
    requires Valid(reg) && Bind(reg, sessionId, binding, force).Ok?
    ensures
      var reg' := Bind(reg, sessionId, binding, force).value;
      && reg' == reg.(scopes := reg'.scopes)
      && (forall x <- reg'.scopes :: reg'.scopes[x].sessionId == x)
      && (forall x, g: nat | Reached(reg, x, g) :: Reached(reg', x, g))
      && (forall x <- reg.scopes :: x in reg'.scopes && reg.scopes[x].generation <= reg'.scopes[x].generation)
  {
    hide RecordOk;
  }

  lemma AddOriginKeepsInv(reg: Registry, token: string, origin: Origin)
    requires Inv(reg) && token in reg.records
    ensures
      var r := reg.records[token];
      var reg' := reg.(records := reg.records[token := r.(origins := r.origins + [origin])]);
      Inv(reg') && Grows(reg, reg')
  {
    var r := reg.records[token];
    var reg' := reg.(records := reg.records[token := r.(origins := r.origins + [origin])]);
    OriginIsAdded(reg, token, origin);
    hide R.Spent, RecordOk, SameReference, Reached;
    assert reg'.records.Keys == reg.records.Keys;
    ReachedAlike(reg, reg');
    UpdateGrows(reg, reg');
    hide Grows;
  }

  lemma OriginIsAdded(reg: Registry, token: string, origin: Origin)
    requires Valid(reg) && token in reg.records
    ensures
      var r := reg.records[token];
      var reg' := reg.(records := reg.records[token := r.(origins := r.origins + [origin])]);
      forall t <- reg'.records :: t in reg.records && RecordOk(reg', t) && SameReference(reg.records[t], reg'.records[t])
  {
    var r := reg.records[token];
    var reg' := reg.(records := reg.records[token := r.(origins := r.origins + [origin])]);
    forall t | t in reg'.records ensures RecordOk(reg', t) && SameReference(reg.records[t], reg'.records[t]) {
      assert RecordOk(reg, t);
    }
  }

  lemma UpdateGrows(reg: Registry, reg': Registry)
    requires reg'.scopes == reg.scopes && reg'.cursors == reg.cursors && reg.counter <= reg'.counter
    requires forall t <- reg.records :: t in reg'.records && SameReference(reg.records[t], reg'.records[t])
    requires forall k <- reg.byObject :: k in reg'.byObject && reg'.byObject[k] == reg.byObject[k]
    ensures Grows(reg, reg')
  {
  }

  lemma NewRecordKeepsInv(reg: Registry, key: ObjectKey, origin: Origin)
    requires Inv(reg) && Reached(reg, key.sessionId, key.generation) && key !in reg.byObject
    ensures
      var token := Token(Prefix(key.kind), reg.counter + 1, reg.nonce);
      var reg' := reg.(counter := reg.counter + 1, records := reg.records[token := Record(token, key, origin, [origin])],
                       byObject := reg.byObject[key := token]);
      Inv(reg') && Grows(reg, reg')
  {
    var token := Token(Prefix(key.kind), reg.counter + 1, reg.nonce);
    var reg' := reg.(counter := reg.counter + 1, records := reg.records[token := Record(token, key, origin, [origin])],
                     byObject := reg.byObject[key := token]);
    NewTokenIsNew(reg, Prefix(key.kind));
    hide R.Spent, Token;
    assert reg'.records.Keys + reg'.cursors.Keys == reg.records.Keys + reg.cursors.Keys + {token};
    NewRecordIsOk(reg, key, origin, token);
    ReachedAlike(reg, reg');
    UpdateGrows(reg, reg');
    hide Reached, RecordOk, Grows;
  }

  lemma ReachedAlike(reg: Registry, reg': Registry)
    requires reg'.scopes == reg.scopes
    ensures forall x, g: nat :: Reached(reg', x, g) == Reached(reg, x, g)
  {
  }

  lemma NewRecordIsOk(reg: Registry, key: ObjectKey, origin: Origin, token: string)
    requires Valid(reg) && Reached(reg, key.sessionId, key.generation) && key !in reg.byObject && token !in reg.records
    ensures
      var reg' := reg.(counter := reg.counter + 1, records := reg.records[token := Record(token, key, origin, [origin])],
                       byObject := reg.byObject[key := token]);
      forall t <- reg'.records :: RecordOk(reg', t)
  {
    var reg' := reg.(counter := reg.counter + 1, records := reg.records[token := Record(token, key, origin, [origin])],
                     byObject := reg.byObject[key := token]);
    forall t | t in reg'.records ensures RecordOk(reg', t) {
      assert t != token ==> RecordOk(reg, t);
    }
  }

  /** `expose` never refuses, never moves a reference, and adds the origin it was called with. */
  lemma ExposeKeepsInv(reg: Registry, key: ObjectKey, origin: Origin)
    requires Inv(reg) && Reached(reg, key.sessionId, key.generation)
    ensures
      var (reg', token) := Expose(reg, key, origin);
      && Inv(reg') && Grows(reg, reg') && reg'.scopes == reg.scopes
      && token.Ok? && token.value in reg'.records
      && reg'.records[token.value].key == key && origin in reg'.records[token.value].origins
  {
    hide Inv, Grows;
    IndexLeadsToRecord(reg, key);
    if key in reg.byObject {
      AddOriginKeepsInv(reg, reg.byObject[key], origin);
      GrowsFromItself(reg);
    } else {
      NewRecordKeepsInv(reg, key, origin);
    }
  }

  lemma IndexLeadsToRecord(reg: Registry, key: ObjectKey)
    requires Inv(reg)
    ensures key in reg.byObject ==> reg.byObject[key] in reg.records && reg.records[reg.byObject[key]].key == key
  {
  }

  lemma CursorKeepsInv(reg: Registry, sessionId: string, query: Query, order: seq<string>, nextOffset: nat)
    requires Inv(reg) && sessionId in reg.scopes
    ensures
      var (reg', token) := IssueCursor(reg, reg.scopes[sessionId], query, order, nextOffset);
      && Inv(reg') && Grows(reg, reg') && reg'.scopes == reg.scopes
      && ResolveCursor(reg', sessionId, token, query, order).Ok?
      && ResolveCursor(reg', sessionId, token, query, order).value.nextOffset == nextOffset
  {
    var (reg', token) := IssueCursor(reg, reg.scopes[sessionId], query, order, nextOffset);
    NewTokenIsNew(reg, "page");
    assert reg'.records.Keys + reg'.cursors.Keys == reg.records.Keys + reg.cursors.Keys + {token};
    forall t | t in reg'.records ensures RecordOk(reg', t) {
      assert RecordOk(reg, t);
    }
  }

  lemma NextKeepsInv(reg: Registry, step: Step)
    requires Inv(reg)
    ensures Inv(Next(reg, step)) && Grows(reg, Next(reg, step))
  {
    hide Inv, Grows, Expose, IssueCursor, Bind, ResolveCursor;
    match step
    case BindSession(sessionId, binding, force) =>
      if Bind(reg, sessionId, binding, force).Ok? {
        BindKeepsInv(reg, sessionId, binding, force);
      } else {
        GrowsFromItself(reg);
      }
    case ExposeObject(sessionId, kind, objectId, parent, revision, origin) =>
      if sessionId in reg.scopes {
        ScopeIsItsSessions(reg, sessionId);
        ExposeKeepsInv(reg, KeyFor(reg.scopes[sessionId], kind, objectId, parent, revision), origin);
      } else {
        GrowsFromItself(reg);
      }
    case IssuePage(sessionId, query, order, nextOffset) =>
      if sessionId in reg.scopes {
        CursorKeepsInv(reg, sessionId, query, order, nextOffset);
      } else {
        GrowsFromItself(reg);
      }
  }

  lemma GrowsFromItself(reg: Registry)
    ensures Grows(reg, reg)
  {
  }

  lemma ScopeIsItsSessions(reg: Registry, sessionId: string)
    requires Inv(reg) && sessionId in reg.scopes
    ensures reg.scopes[sessionId].sessionId == sessionId
  {
  }

  /** Over any run: the index and the records agree, no reference moves, no cursor changes, generations only go up. */
  lemma {:induction false} RunKeepsInv(reg: Registry, steps: seq<Step>)
    requires Inv(reg)
    ensures Inv(Run(reg, steps)) && Grows(reg, Run(reg, steps))
    decreases |steps|
  {
    hide Inv, Grows, Next;
    if steps == [] {
      GrowsFromItself(reg);
    } else {
      NextKeepsInv(reg, steps[0]);
      RunKeepsInv(Next(reg, steps[0]), steps[1..]);
      GrowsTransitive(reg, Next(reg, steps[0]), Run(reg, steps));
    }
  }

  lemma EmptyIsInv(nonce: string)
    ensures Inv(EmptyRegistry(nonce))
  {
  }

  /** The check in `expose` for a conflicting parent can never fire. */
  lemma ExposeNeverRefuses(nonce: string, steps: seq<Step>, sessionId: string, kind: Kind, objectId: string,
                           parent: Option<string>, revision: string, origin: Origin)
    requires sessionId in Run(EmptyRegistry(nonce), steps).scopes
    ensures
      var reg := Run(EmptyRegistry(nonce), steps);
      var (reg', token) := Expose(reg, KeyFor(reg.scopes[sessionId], kind, objectId, parent, revision), origin);
      token.Ok? && Resolve(reg', sessionId, token.value, kind, revision, None, None).Ok?
  {
    hide Run, Inv, Grows;
    EmptyIsInv(nonce);
    RunKeepsInv(EmptyRegistry(nonce), steps);
    var reg := Run(EmptyRegistry(nonce), steps);
    ScopeIsItsSessions(reg, sessionId);
    ExposeKeepsInv(reg, KeyFor(reg.scopes[sessionId], kind, objectId, parent, revision), origin);
  }

  /**
    A reference that resolves keeps resolving to the same object with the same first origin, until
    its session gets a new generation; after that it never resolves again.
  */
  lemma ReferencesLast(reg: Registry, steps: seq<Step>, sessionId: string, token: string, expected: Kind, revision: string,
                       tool: Option<string>, state: Option<string>)
    requires Inv(reg) && Resolve(reg, sessionId, token, expected, revision, tool, state).Ok?
    ensures
      var was, reg' := Resolve(reg, sessionId, token, expected, revision, tool, state).value, Run(reg, steps);
      var now := Resolve(reg', sessionId, token, expected, revision, tool, state);
      sessionId in reg'.scopes &&
      if reg'.scopes[sessionId].generation == reg.scopes[sessionId].generation
      then now.Ok? && SameReference(was, now.value)
      else now == Err("stale_revision_ref")
  {
    hide Run, Inv;
    RunKeepsInv(reg, steps);
  }

  /**
    In any later state a cursor leads on exactly for the session and generation, the query, the
    revision and the frozen order it was issued for, and then to the offset it was issued with.
  */
  lemma CursorOnlyForItsQuery(reg: Registry, steps: seq<Step>, sessionId: string, query: Query, order: seq<string>,
                              nextOffset: nat, sessionId': string, query': Query, order': seq<string>)
    requires Inv(reg) && sessionId in reg.scopes
    ensures
      var (reg1, token) := IssueCursor(reg, reg.scopes[sessionId], query, order, nextOffset);
      var reg2 := Run(reg1, steps);
      var c := ResolveCursor(reg2, sessionId', token, query', order');
      && (c.Ok? <==>
            && sessionId' == sessionId && query' == query && order' == order
            && sessionId in reg2.scopes && reg2.scopes[sessionId].generation == reg.scopes[sessionId].generation)
      && (c.Ok? ==> c.value.nextOffset == nextOffset)
  {
    hide Run, Inv;
    ScopeIsItsSessions(reg, sessionId);
    CursorKeepsInv(reg, sessionId, query, order, nextOffset);
    RunKeepsInv(IssueCursor(reg, reg.scopes[sessionId], query, order, nextOffset).0, steps);
  }

  // ---- the object ----

  class AccountReferenceRegistry {
    var nonce: string
    var counter: nat
    var scopes: map<string, Scope>
    var records: map<string, Record>
    var byObject: map<ObjectKey, string>
    var cursors: map<string, Cursor>

    function View(): Registry
      reads this
    {
      Registry(nonce, counter, scopes, records, byObject, cursors)
    }

    constructor (nonce: string)
      ensures View() == EmptyRegistry(nonce)
    {
      this.nonce, counter := nonce, 0;
      scopes, records, byObject, cursors := map[], map[], map[], map[];
    }

    method BindScope(sessionId: string, binding: R.Binding, forceNewGeneration: bool) returns (bound: Result<Scope>)
      modifies this
      ensures
        var spec := Bind(old(View()), sessionId, binding, forceNewGeneration);
        && View() == (if spec.Ok? then spec.value else old(View()))
        && bound == (if spec.Ok? then Ok(View().scopes[sessionId]) else Err(spec.code))
    {
      if sessionId == "" {
        return Err("scope_unbound");
      }
      var generation := 1;
      if sessionId in scopes {
        if scopes[sessionId].binding == binding && !forceNewGeneration {
          return Ok(scopes[sessionId]);
        }
        generation := scopes[sessionId].generation + 1;
      }
      scopes := scopes[sessionId := Scope(sessionId, binding, generation)];
      return Ok(scopes[sessionId]);
    }

    method ExposeObject(sessionId: string, kind: Kind, objectId: string, parent: Option<string>, revision: string,
                        origin: Origin) returns (token: Result<string>)
      modifies this
      ensures sessionId !in old(scopes) ==> token == Err("investigation_scope_unbound") && View() == old(View())
      ensures sessionId in old(scopes) ==>
        (View(), token) == Expose(old(View()), KeyFor(old(scopes)[sessionId], kind, objectId, parent, revision), origin)
    {
      if sessionId !in scopes {
        return Err("investigation_scope_unbound");
      }
      var key := KeyFor(scopes[sessionId], kind, objectId, parent, revision);
      if key in byObject && byObject[key] in records {
        var existing := records[byObject[key]];
        if existing.key.parentAccount != parent {
          return Err("wrong_parent_ref");
        }
        if origin !in existing.origins {
          records := records[byObject[key] := existing.(origins := existing.origins + [origin])];
        }
        return Ok(byObject[key]);
      }
      counter := counter + 1;
      var issued := Token(Prefix(kind), counter, nonce);
      records := records[issued := Record(issued, key, origin, [origin])];
      byObject := byObject[key := issued];
      return Ok(issued);
    }

    method IssuePage(sessionId: string, query: Query, order: seq<string>, nextOffset: nat) returns (token: Result<string>)
      modifies this
      ensures sessionId !in old(scopes) ==> token == Err("investigation_scope_unbound") && View() == old(View())
      ensures sessionId in old(scopes) ==>
        var (reg, page) := IssueCursor(old(View()), old(scopes)[sessionId], query, order, nextOffset);
        View() == reg && token == Ok(page)
    {
      if sessionId !in scopes {
        return Err("investigation_scope_unbound");
      }
      counter := counter + 1;
      var page := Token("page", counter, nonce);
      cursors := cursors[page := Cursor(page, scopes[sessionId].sessionId, scopes[sessionId].generation, query, order, nextOffset)];
      return Ok(page);
    }
  }
}
