/** Navigation across restarts: a saved session comes back with references that every tool still accepts. */
module NavigationRestarts {
  import opened Wrappers
  import opened Navigation
  import opened NavigationRuns
  import opened ReferenceState
  import S = SessionStore
  import R = ReportTaskRefs

  /** A new process after the session's state was saved as `d`: the session is bound, and its state loaded. */
  function Restart(w: World, sessionId: string, d: Dump, nonce: string): World {
    if sessionId !in w.sys.reg.scopes then w
    else
      var bound := FreshlyBound(nonce, sessionId, w.sys.reg.scopes[sessionId].binding);
      var loaded := Load(bound, sessionId, d);
      var reg := if loaded.Ok? then loaded.value else bound;
      World(R.System(reg, map[], S.MintedOf(reg)), map[])
  }

  lemma RestartedRegistry(w: World, sessionId: string, d: Dump, nonce: string)
    requires R.Inv(w.sys) && IsDump(w.sys.reg, sessionId, d)
    ensures
      var reg, reg' := w.sys.reg, Restart(w, sessionId, d, nonce).sys.reg;
      && Load(FreshlyBound(nonce, sessionId, reg.scopes[sessionId].binding), sessionId, d) == Ok(reg')
      && reg'.records == SessionPart(reg.records, RecordScope, sessionId)
      && reg'.scopes == map[sessionId := reg.scopes[sessionId]]
      && R.Valid(reg') && R.OneTokenPerObject(reg') && R.Spent(reg'.counter, R.UsedTokens(reg', S.MintedOf(reg')))
      && (forall t <- reg'.records :: R.KeyOf(reg'.records[t]) in reg'.byObject)
  {
    RestoredDictionaries(w.sys.reg, sessionId, d, nonce);
    RestoredIndex(w.sys.reg, sessionId, d, nonce);
    S.MintedSpent(w.sys);
    RestoredTokensAreSpent(w.sys.reg, sessionId, d, nonce, "p");
  }

  lemma RestartedSystem(w: World, sessionId: string, d: Dump, nonce: string)
    requires R.Inv(w.sys) && IsDump(w.sys.reg, sessionId, d)
    ensures R.Inv(Restart(w, sessionId, d, nonce).sys)
  {
    RestartedRegistry(w, sessionId, d, nonce);
    hide Load, FreshlyBound, IsDump, R.Spent;
    var sys := Restart(w, sessionId, d, nonce).sys;
    assert R.AllMinted(sys.reg, sys.batches, sys.minted);
  }

  /** What was indexed for the session is indexed after the restart. */
  lemma KeyIsKept(reg: R.Registry, reg': R.Registry, sessionId: string, key: R.ObjectKey)
    requires R.Valid(reg) && key in reg.byObject && key.sessionId == sessionId
    requires reg'.records == SessionPart(reg.records, RecordScope, sessionId)
    requires forall t <- reg'.records :: R.KeyOf(reg'.records[t]) in reg'.byObject
    ensures key in reg'.byObject
  {
    var token := reg.byObject[key];
    var r := reg.records[token];
    assert R.KeyOf(r) == key && RecordScope(r) == r.scope;
    assert token in reg'.records && reg'.records[token] == r;
  }

  lemma ParentsAreKept(rep: Report, reg: R.Registry, reg': R.Registry, sessionId: string)
    requires R.Valid(reg) && ParentsIndexed(rep, reg)
    requires reg'.records == SessionPart(reg.records, RecordScope, sessionId)
    requires forall t <- reg'.records :: R.KeyOf(reg'.records[t]) in reg'.byObject
    ensures ParentsIndexed(rep, reg')
  {
    hide R.Valid, ParentOf;
    forall t | t in reg'.records && reg'.records[t].kind.Evidence?
      ensures ParentKey(reg'.records[t].scope, ParentOf(rep, reg'.records[t].objectId)) in reg'.byObject
    {
      assert t in reg.records && reg.records[t] == reg'.records[t] && RecordScope(reg.records[t]) == reg.records[t].scope;
      KeyIsKept(reg, reg', sessionId, ParentKey(reg'.records[t].scope, ParentOf(rep, reg'.records[t].objectId)));
    }
  }

  lemma RestartedRecords(rep: Report, w: World, sessionId: string, d: Dump, nonce: string)
    requires Inv(rep, w) && IsDump(w.sys.reg, sessionId, d)
    ensures RecordsLegit(rep, Restart(w, sessionId, d, nonce).sys.reg)
    ensures ParentsIndexed(rep, Restart(w, sessionId, d, nonce).sys.reg)
  {
    hide LegitRecord, BatchOk, R.Inv, R.Valid, ParentsIndexed, Load, FreshlyBound, IsDump, Restart, R.Spent;
    SystemIsValid(w.sys);
    RestartedRegistry(w, sessionId, d, nonce);
    ParentsAreKept(rep, w.sys.reg, Restart(w, sessionId, d, nonce).sys.reg, sessionId);
  }

  /** Save, death, bind and load keep the invariant of navigation. */
  lemma RestartKeepsInv(rep: Report, w: World, sessionId: string, d: Dump, nonce: string)
    requires Inv(rep, w) && IsDump(w.sys.reg, sessionId, d)
    ensures Inv(rep, Restart(w, sessionId, d, nonce))
    ensures Restart(w, sessionId, d, nonce).sys.reg.scopes == map[sessionId := w.sys.reg.scopes[sessionId]]
  {
    hide R.Inv, RecordsLegit, ParentsIndexed, BatchOk, Load, IsDump;
    RestartedSystem(w, sessionId, d, nonce);
    RestartedRecords(rep, w, sessionId, d, nonce);
    RestartedRegistry(w, sessionId, d, nonce);
  }

  /** One life of the process: what it does, what it has saved when it ends, and the nonce of the next process. */
  datatype Life = Life(steps: seq<Step>, dump: Dump, nextNonce: string)

  function After(rep: Report, w: World, sessionId: string, lives: seq<Life>): World
    decreases |lives|
  {
    if lives == [] then w
    else After(rep, Restart(Run(rep, w, lives[0].steps), sessionId, lives[0].dump, lives[0].nextNonce), sessionId, lives[1..])
  }

  /** The session is saved at the end of every life, and none of them opens a new generation for it. */
  ghost predicate Lives(rep: Report, w: World, sessionId: string, lives: seq<Life>)
    decreases |lives|
  {
    lives == [] ||
      (var w' := Run(rep, w, lives[0].steps);
       && sessionId in w.sys.reg.scopes && sessionId in w'.sys.reg.scopes
       && w'.sys.reg.scopes[sessionId] == w.sys.reg.scopes[sessionId]
       && IsDump(w'.sys.reg, sessionId, lives[0].dump)
       && Lives(rep, Restart(w', sessionId, lives[0].dump, lives[0].nextNonce), sessionId, lives[1..]))
  }

  lemma ResolvesAfterRestart(rep: Report, w: World, sessionId: string, d: Dump, nonce: string, token: string, kind: R.Kind)
    requires Inv(rep, w) && IsDump(w.sys.reg, sessionId, d) && R.Resolve(w.sys.reg, sessionId, token, Some(kind)).Ok?
    ensures R.Resolve(Restart(w, sessionId, d, nonce).sys.reg, sessionId, token, Some(kind)) == R.Resolve(w.sys.reg, sessionId, token, Some(kind))
  {
    hide RecordsLegit, ParentsIndexed, BatchOk, Load, FreshlyBound, R.Resolve;
    RestartedRegistry(w, sessionId, d, nonce);
    RestoreKeepsAnswers(w.sys.reg, sessionId, d, nonce);
    var reg' := Restart(w, sessionId, d, nonce).sys.reg;
    var was, now := R.Resolve(w.sys.reg, sessionId, token, Some(kind)), R.Resolve(reg', sessionId, token, Some(kind));
    assert now == was || (was == Err("cross_scope_ref") && now == Err("unknown_ref"));
  }

  lemma AfterOne(rep: Report, w: World, sessionId: string, lives: seq<Life>)
    requires lives != []
    ensures After(rep, w, sessionId, lives) ==
      After(rep, Restart(Run(rep, w, lives[0].steps), sessionId, lives[0].dump, lives[0].nextNonce), sessionId, lives[1..])
  {
    hide Run, Restart;
  }

  /**
    A reference that resolved once is accepted by every tool that consumes its kind, for the same
    object, through any number of restarts of the process and whatever happens between them, for as
    long as its session keeps its generation.
  */
  lemma {:induction false} AcceptedAcrossRestarts(rep: Report, w: World, sessionId: string, lives: seq<Life>, token: string, kind: R.Kind)
    requires WellFormed(rep) && Inv(rep, w) && Lives(rep, w, sessionId, lives)
    requires R.Resolve(w.sys.reg, sessionId, token, Some(kind)).Ok?
    ensures
      var w' := After(rep, w, sessionId, lives);
      var was, now := R.Resolve(w.sys.reg, sessionId, token, Some(kind)), R.Resolve(w'.sys.reg, sessionId, token, Some(kind));
      && Inv(rep, w')
      && now.Ok? && R.IdentityOf(now.value) == R.IdentityOf(was.value)
      && Accepted(rep, w'.sys.reg, sessionId, token, kind)
    decreases |lives|
  {
    hide WellFormed, Inv, R.Resolve, Accepted, Run, Restart, IsDump;
    if lives == [] {
      ResolvedIsAccepted(rep, w, sessionId, token, kind);
    } else {
      var life := lives[0];
      var w1 := Run(rep, w, life.steps);
      var w2 := Restart(w1, sessionId, life.dump, life.nextNonce);
      RunKeepsInv(rep, w, life.steps);
      AcceptedForever(rep, w, life.steps, sessionId, token, kind);
      RestartKeepsInv(rep, w1, sessionId, life.dump, life.nextNonce);
      ResolvesAfterRestart(rep, w1, sessionId, life.dump, life.nextNonce, token, kind);
      AfterOne(rep, w, sessionId, lives);
      AcceptedAcrossRestarts(rep, w2, sessionId, lives[1..], token, kind);
    }
  }
}
