/**
  Navigation over whole runs: tools of several callers interleave exposure by exposure, sessions
  rebind, commits may break off. Every reference the service ever published stays acceptable.
*/
module NavigationRuns {
  import opened Wrappers
  import opened Navigation
  import R = ReportTaskRefs

  /** The references of the process, and what every open tool call still has to expose. */
  datatype World = World(sys: R.System, todo: map<nat, seq<Item>>)

  datatype Step =
    | Start(id: nat, sessionId: string, call: Call)
    | ExposeNext(id: nat)
    | Finish(id: nat)
    | IssueCursor(step: R.Step)
    | BindSession(sessionId: string, binding: R.Binding, forceNewGeneration: bool)

  function Next(rep: Report, w: World, step: Step): World {
    match step
    case Start(id, sessionId, call) =>
      if id in w.todo || id in w.sys.batches || sessionId !in w.sys.reg.scopes || ItemsOf(rep, w.sys.reg, sessionId, call).Err? then w
      else World(R.Next(w.sys, R.OpenBatch(id, sessionId)), w.todo[id := ItemsOf(rep, w.sys.reg, sessionId, call).value])
    case ExposeNext(id) =>
      if id !in w.todo || w.todo[id] == [] then w
      else
        var x := w.todo[id][0];
        World(R.Next(w.sys, R.ExposeObject(id, x.kind, x.objectId, x.origin)), w.todo[id := w.todo[id][1..]])
    case Finish(id) =>
      if id !in w.todo || w.todo[id] != [] then w else w.(sys := R.Next(w.sys, R.CommitBatch(id)))
    case IssueCursor(rstep) =>
      if rstep.IssueSearch? || rstep.IssueComments? then w.(sys := R.Next(w.sys, rstep)) else w
    case BindSession(sessionId, binding, force) =>
      w.(sys := R.Next(w.sys, R.BindSession(sessionId, binding, force)))
  }

  function Run(rep: Report, w: World, steps: seq<Step>): World
    decreases |steps|
  {
    if steps == [] then w else Run(rep, Next(rep, w, steps[0]), steps[1..])
  }

  function Initial(nonce: string): World {
    World(R.System(R.EmptyRegistry(nonce), map[], map[]), map[])
  }

  // ---- the invariant ----

  ghost predicate RecordsLegit(rep: Report, reg: R.Registry) {
    forall t <- reg.records :: LegitRecord(rep, reg.records[t])
  }

  /** Under the scope of any published evidence its parent post is indexed. */
  ghost predicate ParentsIndexed(rep: Report, reg: R.Registry) {
    forall t <- reg.records | reg.records[t].kind.Evidence? ::
      ParentKey(reg.records[t].scope, ParentOf(rep, reg.records[t].objectId)) in reg.byObject
  }

  ghost predicate StagedLegit(rep: Report, b: R.Batch) {
    forall r <- b.staged :: LegitRecord(rep, r)
  }

  predicate IsCurrent(reg: R.Registry, scope: R.Scope) {
    scope.sessionId in reg.scopes && reg.scopes[scope.sessionId] == scope
  }

  /** What is staged, as items: every staged evidence comes after its parent post, or the post is indexed. */
  ghost predicate StagedParents(rep: Report, indexed: map<R.ObjectKey, string>, b: R.Batch) {
    forall i | 0 <= i < |b.staged| && b.staged[i].kind.Evidence? :: BehindParent(rep, indexed, b.scope, b.staged, i)
  }

  ghost predicate HasStaged(b: R.Batch, key: R.ObjectKey) {
    exists r <- b.staged :: R.KeyOf(r) == key
  }

  /** What is still to be exposed: every evidence comes after its parent post, or the post is staged or indexed. */
  ghost predicate TodoParents(rep: Report, indexed: map<R.ObjectKey, string>, b: R.Batch, items: seq<Item>) {
    forall i | 0 <= i < |items| && items[i].kind.Evidence? ::
      var parent := ParentOf(rep, items[i].objectId);
      || ParentKey(b.scope, parent) in indexed
      || HasStaged(b, ParentKey(b.scope, parent))
      || exists j :: 0 <= j < i && items[j].kind.Post? && items[j].objectId == parent
  }

  ghost predicate BatchOk(rep: Report, reg: R.Registry, b: R.Batch, items: seq<Item>) {
    && StagedLegit(rep, b) && LegitItems(rep, items)
    && (b.committed ==> items == [])
    && (forall r <- b.staged :: IsCurrent(reg, b.scope) ==> r.scope == b.scope)
    && (IsCurrent(reg, b.scope) ==> StagedParents(rep, reg.byObject, b) && TodoParents(rep, reg.byObject, b, items))
  }

  ghost predicate Inv(rep: Report, w: World) {
    && R.Inv(w.sys) && w.todo.Keys == w.sys.batches.Keys
    && RecordsLegit(rep, w.sys.reg) && ParentsIndexed(rep, w.sys.reg)
    && forall id <- w.todo :: BatchOk(rep, w.sys.reg, w.sys.batches[id], w.todo[id])
  }

  // ---- how the invariant survives ----

  /** The index only grew and no scope came back: an open batch stays in order. */
  lemma GrowthKeepsBatchOk(rep: Report, reg: R.Registry, reg': R.Registry, b: R.Batch, items: seq<Item>)
    requires BatchOk(rep, reg, b, items) && R.Grows(reg, reg')
    requires IsCurrent(reg', b.scope) ==> IsCurrent(reg, b.scope)
    ensures BatchOk(rep, reg', b, items)
  {
    hide LegitRecord, Legit;
    if IsCurrent(reg', b.scope) {
      forall i | 0 <= i < |b.staged| && b.staged[i].kind.Evidence?
        ensures BehindParent(rep, reg'.byObject, b.scope, b.staged, i)
      {
        assert BehindParent(rep, reg.byObject, b.scope, b.staged, i);
      }
    }
  }

  /** A scope that is current now and was known before was current before. */
  lemma CurrentWasCurrent(reg: R.Registry, reg': R.Registry, scope: R.Scope)
    requires R.Known(reg, scope) && R.Grows(reg, reg') && IsCurrent(reg', scope)
    ensures IsCurrent(reg, scope)
  {
  }

  /** A step that publishes nothing and touches no batch but maybe one. */
  lemma QuietStepKeepsInv(rep: Report, w: World, sys: R.System)
    requires Inv(rep, w) && R.Inv(sys) && R.Grows(w.sys.reg, sys.reg)
    requires sys.batches == w.sys.batches && sys.reg.records == w.sys.reg.records
    ensures Inv(rep, w.(sys := sys))
  {
    hide R.Inv, LegitRecord, BatchOk, R.Grows;
    assert ParentsIndexed(rep, sys.reg) by {
      KeptIndex(w.sys.reg, sys.reg);
    }
    forall id | id in w.todo ensures BatchOk(rep, sys.reg, sys.batches[id], w.todo[id]) {
      assert BatchOk(rep, w.sys.reg, w.sys.batches[id], w.todo[id]);
      BatchScopeKnown(w.sys, id);
      if IsCurrent(sys.reg, w.sys.batches[id].scope) {
        CurrentWasCurrent(w.sys.reg, sys.reg, w.sys.batches[id].scope);
      }
      GrowthKeepsBatchOk(rep, w.sys.reg, sys.reg, w.sys.batches[id], w.todo[id]);
    }
  }

  lemma KeptIndex(reg: R.Registry, reg': R.Registry)
    requires R.Grows(reg, reg')
    ensures forall k <- reg.byObject :: k in reg'.byObject
  {
  }

  lemma BatchScopeKnown(sys: R.System, id: nat)
    requires R.Inv(sys) && id in sys.batches
    ensures R.Known(sys.reg, sys.batches[id].scope)
  {
  }

  lemma PostsAreIndexed(sys: R.System)
    requires R.Inv(sys)
    ensures PostsIndexed(sys.reg)
  {
  }

  lemma SystemIsValid(sys: R.System)
    requires R.Inv(sys)
    ensures R.Valid(sys.reg)
  {
  }

  lemma StartKeepsInv(rep: Report, w: World, id: nat, sessionId: string, call: Call)
    requires WellFormed(rep) && Inv(rep, w)
    ensures Inv(rep, Next(rep, w, Start(id, sessionId, call)))
  {
    hide R.Inv, LegitRecord, BatchOk, R.Grows, ItemsOf, WellFormed, R.Valid, PostsIndexed;
    if !(id in w.todo || id in w.sys.batches || sessionId !in w.sys.reg.scopes || ItemsOf(rep, w.sys.reg, sessionId, call).Err?) {
      PostsAreIndexed(w.sys);
      SystemIsValid(w.sys);
      ItemsAreLegit(rep, w.sys.reg, sessionId, call);
      R.NextKeepsInv(w.sys, R.OpenBatch(id, sessionId));
      NewBatchOk(rep, w.sys.reg, R.Batch(w.sys.reg.scopes[sessionId], [], false), ItemsOf(rep, w.sys.reg, sessionId, call).value);
    }
  }

  lemma NewBatchOk(rep: Report, reg: R.Registry, b: R.Batch, items: seq<Item>)
    requires b.staged == [] && !b.committed && LegitItems(rep, items) && ParentsFirst(rep, reg.byObject, b.scope, items)
    ensures BatchOk(rep, reg, b, items)
  {
    hide Legit;
  }

  // ---- exposing ----

  lemma {:induction false} StagePlaces(staged: seq<R.Record>, r: R.Record)
    ensures |staged| <= |R.Stage(staged, r)| <= |staged| + 1
    ensures forall i | 0 <= i < |staged| ::
      R.Stage(staged, r)[i] == staged[i] || (R.Stage(staged, r)[i] == r && staged[i].token == r.token)
    ensures |R.Stage(staged, r)| > |staged| ==> R.Stage(staged, r)[|staged|] == r
    ensures r in R.Stage(staged, r)
    ensures forall x <- R.Stage(staged, r) :: x == r || x in staged
  {
    if staged != [] && staged[0].token != r.token {
      StagePlaces(staged[1..], r);
    }
  }

  lemma StagedPlacesKeepKeys(staged: seq<R.Record>, r: R.Record)
    requires forall x <- staged :: x.token == r.token ==> R.IdentityOf(x) == R.IdentityOf(r)
    ensures |staged| <= |R.Stage(staged, r)| <= |staged| + 1
    ensures forall i | 0 <= i < |staged| :: R.IdentityOf(R.Stage(staged, r)[i]) == R.IdentityOf(staged[i])
    ensures |R.Stage(staged, r)| > |staged| ==> R.Stage(staged, r)[|staged|] == r
  {
    hide R.Stage;
    StagePlaces(staged, r);
    assert forall i | 0 <= i < |staged| :: staged[i] in staged;
  }

  ghost predicate BehindParent(rep: Report, indexed: map<R.ObjectKey, string>, scope: R.Scope, staged: seq<R.Record>, i: nat)
    requires i < |staged|
  {
    var key := ParentKey(scope, ParentOf(rep, staged[i].objectId));
    key in indexed || exists j :: 0 <= j < i && R.KeyOf(staged[j]) == key
  }

  /** Staging a record that keeps its key, behind whatever it needs, keeps the batch in order. */
  lemma StageKeepsParents(rep: Report, indexed: map<R.ObjectKey, string>, b: R.Batch, r: R.Record)
    requires StagedParents(rep, indexed, b)
    requires forall x <- b.staged :: x.token == r.token ==> R.IdentityOf(x) == R.IdentityOf(r)
    requires r.kind.Evidence? ==>
      ParentKey(b.scope, ParentOf(rep, r.objectId)) in indexed || HasStaged(b, ParentKey(b.scope, ParentOf(rep, r.objectId)))
    ensures StagedParents(rep, indexed, b.(staged := R.Stage(b.staged, r)))
  {
    hide R.Stage, BehindParent, ParentOf;
    var s, s' := b.staged, R.Stage(b.staged, r);
    StagedPlacesKeepKeys(s, r);
    forall i | 0 <= i < |s'| && s'[i].kind.Evidence? ensures BehindParent(rep, indexed, b.scope, s', i) {
      if i < |s| {
        assert R.IdentityOf(s'[i]) == R.IdentityOf(s[i]);
        OldStaysBehind(rep, indexed, b.scope, s, s', i);
      } else {
        NewIsBehind(rep, indexed, b, s', i);
      }
    }
  }

  lemma OldStaysBehind(rep: Report, indexed: map<R.ObjectKey, string>, scope: R.Scope, s: seq<R.Record>, s': seq<R.Record>, i: nat)
    requires i < |s| <= |s'| && BehindParent(rep, indexed, scope, s, i)
    requires forall j | 0 <= j < |s| :: R.IdentityOf(s'[j]) == R.IdentityOf(s[j])
    ensures BehindParent(rep, indexed, scope, s', i)
  {
    hide ParentOf;
    assert R.IdentityOf(s'[i]) == R.IdentityOf(s[i]);
    var key := ParentKey(scope, ParentOf(rep, s[i].objectId));
    if key !in indexed {
      var j :| 0 <= j < i && R.KeyOf(s[j]) == key;
      assert R.IdentityOf(s'[j]) == R.IdentityOf(s[j]);
      assert R.KeyOf(s'[j]) == key;
    }
  }

  lemma NewIsBehind(rep: Report, indexed: map<R.ObjectKey, string>, b: R.Batch, s': seq<R.Record>, i: nat)
    requires i == |b.staged| < |s'| && forall j | 0 <= j < i :: R.IdentityOf(s'[j]) == R.IdentityOf(b.staged[j])
    requires
      var key := ParentKey(b.scope, ParentOf(rep, s'[i].objectId));
      key in indexed || HasStaged(b, key)
    ensures BehindParent(rep, indexed, b.scope, s', i)
  {
    hide ParentOf;
    var key := ParentKey(b.scope, ParentOf(rep, s'[i].objectId));
    if key !in indexed {
      var x :| x in b.staged && R.KeyOf(x) == key;
      var j :| 0 <= j < |b.staged| && b.staged[j] == x;
      assert R.IdentityOf(s'[j]) == R.IdentityOf(b.staged[j]);
      assert R.KeyOf(s'[j]) == key;
    }
  }

  lemma StagedKeysStay(b: R.Batch, r: R.Record)
    requires forall x <- b.staged :: x.token == r.token ==> R.IdentityOf(x) == R.IdentityOf(r)
    ensures forall key :: HasStaged(b, key) ==> HasStaged(b.(staged := R.Stage(b.staged, r)), key)
    ensures HasStaged(b.(staged := R.Stage(b.staged, r)), R.KeyOf(r))
  {
    var s, s' := b.staged, R.Stage(b.staged, r);
    StagePlaces(s, r);
    forall key | HasStaged(b, key) ensures exists x <- s' :: R.KeyOf(x) == key {
      var x :| x in s && R.KeyOf(x) == key;
      var i :| 0 <= i < |s| && s[i] == x;
      assert R.KeyOf(s'[i]) == key && s'[i] in s';
    }
  }

  /** The head of the list went into the batch: the rest is in order behind it. */
  lemma RestKeepsParents(rep: Report, indexed: map<R.ObjectKey, string>, b: R.Batch, b': R.Batch, items: seq<Item>)
    requires items != [] && TodoParents(rep, indexed, b, items) && b'.scope == b.scope
    requires forall key :: HasStaged(b, key) ==> HasStaged(b', key)
    requires items[0].kind.Post? ==> HasStaged(b', ParentKey(b.scope, items[0].objectId))
    ensures TodoParents(rep, indexed, b', items[1..])
  {
    hide HasStaged;
    var rest := items[1..];
    forall i | 0 <= i < |rest| && rest[i].kind.Evidence?
      ensures
        var parent := ParentOf(rep, rest[i].objectId);
        || ParentKey(b.scope, parent) in indexed || HasStaged(b', ParentKey(b.scope, parent))
        || exists j :: 0 <= j < i && rest[j].kind.Post? && rest[j].objectId == parent
    {
      var parent := ParentOf(rep, rest[i].objectId);
      assert rest[i] == items[i + 1];
      if !(ParentKey(b.scope, parent) in indexed || HasStaged(b', ParentKey(b.scope, parent))) {
        var j :| 0 <= j < i + 1 && items[j].kind.Post? && items[j].objectId == parent;
        assert j > 0 && rest[j - 1] == items[j];
      }
    }
  }

  /** The record that an exposure stages: legitimate, of the item's object, and of the batch's scope while that is current. */
  ghost predicate StagesFor(rep: Report, reg: R.Registry, b: R.Batch, x: Item, r: R.Record) {
    && LegitRecord(rep, r) && r.kind == x.kind && r.objectId == x.objectId
    && (IsCurrent(reg, b.scope) ==> r.scope == b.scope)
  }

  lemma ExposedRecord(rep: Report, w: World, id: nat) returns (r: R.Record)
    requires Inv(rep, w) && id in w.todo && w.todo[id] != [] && !w.sys.batches[id].committed
    requires w.sys.batches[id].scope.sessionId in w.sys.reg.scopes
    ensures
      var x, b := w.todo[id][0], w.sys.batches[id];
      var e := R.Expose(w.sys.reg, b, x.kind, x.objectId, x.origin);
      && e.batch == b.(staged := R.Stage(b.staged, r))
      && e.reg == w.sys.reg.(counter := e.reg.counter)
      && StagesFor(rep, w.sys.reg, b, x, r)
      && (forall y <- b.staged :: y.token == r.token ==> R.IdentityOf(y) == R.IdentityOf(r))
  {
    hide Legit, BatchOk, ParentsIndexed;
    var x, b := w.todo[id][0], w.sys.batches[id];
    assert Legit(rep, x.kind, x.objectId, x.origin) by {
      assert BatchOk(rep, w.sys.reg, b, w.todo[id]) && x in w.todo[id];
      BatchItemsLegit(rep, w.sys.reg, b, w.todo[id]);
    }
    var existing := R.RecordForObject(w.sys.reg, w.sys.reg.scopes[b.scope.sessionId], x.kind, x.objectId);
    if existing.Some? {
      ExistingRecord(w.sys, b.scope, x.kind, x.objectId);
      var found := existing.value;
      assert R.Minted(w.sys.minted, found) && forall y <- b.staged :: R.Minted(w.sys.minted, y);
      r := found.(origins := if x.origin in found.origins then found.origins else found.origins + [x.origin]);
      assert LegitRecord(rep, found);
    } else {
      r := R.Record(R.NextToken(w.sys.reg, R.Prefix(x.kind)), b.scope, x.kind, x.objectId, [x.origin]);
      R.NextTokenIsNew(w.sys.reg, R.Prefix(x.kind), R.UsedTokens(w.sys.reg, w.sys.minted));
      assert forall y <- b.staged :: R.Minted(w.sys.minted, y);
    }
  }

  lemma BatchItemsLegit(rep: Report, reg: R.Registry, b: R.Batch, items: seq<Item>)
    requires BatchOk(rep, reg, b, items)
    ensures LegitItems(rep, items)
  {
  }

  lemma ExistingRecord(sys: R.System, scope: R.Scope, kind: R.Kind, objectId: string)
    requires R.Inv(sys) && scope.sessionId in sys.reg.scopes
    requires R.RecordForObject(sys.reg, sys.reg.scopes[scope.sessionId], kind, objectId).Some?
    ensures
      var r := R.RecordForObject(sys.reg, sys.reg.scopes[scope.sessionId], kind, objectId).value;
      && r.kind == kind && r.objectId == objectId && r.token in sys.reg.records && sys.reg.records[r.token] == r
      && (IsCurrent(sys.reg, scope) ==> r.scope == scope)
  {
    var key := R.ObjectKey(sys.reg.scopes[scope.sessionId].sessionId, sys.reg.scopes[scope.sessionId].generation, kind, objectId);
    assert R.KeyOf(sys.reg.records[sys.reg.byObject[key]]) == key;
  }

  lemma StagedBatchOk(rep: Report, reg: R.Registry, b: R.Batch, items: seq<Item>, r: R.Record)
    requires items != [] && BatchOk(rep, reg, b, items) && StagesFor(rep, reg, b, items[0], r)
    requires forall x <- b.staged :: x.token == r.token ==> R.IdentityOf(x) == R.IdentityOf(r)
    ensures BatchOk(rep, reg, b.(staged := R.Stage(b.staged, r)), items[1..])
  {
    hide LegitRecord, Legit, StagedParents, TodoParents;
    var b' := b.(staged := R.Stage(b.staged, r));
    StagePlaces(b.staged, r);
    StagedKeysStay(b, r);
    assert LegitItems(rep, items[1..]);
    if IsCurrent(reg, b.scope) {
      assert R.KeyOf(r) == R.ObjectKey(b.scope.sessionId, b.scope.generation, items[0].kind, items[0].objectId);
      if items[0].kind.Evidence? {
        HeadHasParent(rep, reg.byObject, b, items);
      }
      StageKeepsParents(rep, reg.byObject, b, r);
      RestKeepsParents(rep, reg.byObject, b, b', items);
    }
  }

  lemma HeadHasParent(rep: Report, indexed: map<R.ObjectKey, string>, b: R.Batch, items: seq<Item>)
    requires items != [] && TodoParents(rep, indexed, b, items) && items[0].kind.Evidence?
    ensures ParentKey(b.scope, ParentOf(rep, items[0].objectId)) in indexed
         || HasStaged(b, ParentKey(b.scope, ParentOf(rep, items[0].objectId)))
  {
  }

  lemma ExposeKeepsInv(rep: Report, w: World, id: nat)
    requires Inv(rep, w)
    ensures Inv(rep, Next(rep, w, ExposeNext(id)))
  {
    hide R.Inv, LegitRecord, BatchOk, R.Grows, R.Expose, R.Stage, StagesFor, ParentsIndexed, RecordsLegit;
    if id in w.todo && w.todo[id] != [] {
      var x, b := w.todo[id][0], w.sys.batches[id];
      OpenBatchIsOpen(rep, w, id);
      var r := ExposedRecord(rep, w, id);
      var sys := R.Next(w.sys, R.ExposeObject(id, x.kind, x.objectId, x.origin));
      R.NextKeepsInv(w.sys, R.ExposeObject(id, x.kind, x.objectId, x.origin));
      StagedBatchOk(rep, w.sys.reg, b, w.todo[id], r);
      var w1 := World(w.sys.(batches := w.sys.batches[id := b.(staged := R.Stage(b.staged, r))]), w.todo[id := w.todo[id][1..]]);
      var w2 := w1.(sys := sys);
      assert w2 == Next(rep, w, ExposeNext(id));
      RecountKeepsOk(rep, w.sys.reg, sys.reg);
      forall k | k in w2.todo ensures BatchOk(rep, sys.reg, w2.sys.batches[k], w2.todo[k]) {
        assert k != id ==> BatchOk(rep, w.sys.reg, w.sys.batches[k], w.todo[k]);
        RecountKeepsBatchOk(rep, w.sys.reg, sys.reg, w2.sys.batches[k], w2.todo[k]);
      }
    }
  }

  lemma OpenBatchIsOpen(rep: Report, w: World, id: nat)
    requires Inv(rep, w) && id in w.todo && w.todo[id] != []
    ensures !w.sys.batches[id].committed && w.sys.batches[id].scope.sessionId in w.sys.reg.scopes
  {
    assert BatchOk(rep, w.sys.reg, w.sys.batches[id], w.todo[id]);
    assert R.Known(w.sys.reg, w.sys.batches[id].scope);
  }

  lemma RecountKeepsOk(rep: Report, reg: R.Registry, reg': R.Registry)
    requires RecordsLegit(rep, reg) && ParentsIndexed(rep, reg) && reg' == reg.(counter := reg'.counter)
    ensures RecordsLegit(rep, reg') && ParentsIndexed(rep, reg')
  {
    hide LegitRecord;
  }

  lemma RecountKeepsBatchOk(rep: Report, reg: R.Registry, reg': R.Registry, b: R.Batch, items: seq<Item>)
    requires BatchOk(rep, reg, b, items) && reg' == reg.(counter := reg'.counter)
    ensures BatchOk(rep, reg', b, items)
  {
    hide LegitRecord, Legit, StagedParents, TodoParents;
  }

  // ---- publishing ----

  lemma {:induction false} PublishKeepsLegit(rep: Report, reg: R.Registry, records: seq<R.Record>)
    requires RecordsLegit(rep, reg) && forall r <- records :: LegitRecord(rep, r)
    ensures RecordsLegit(rep, R.Publish(reg, records).0)
    decreases |records|
  {
    hide LegitRecord;
    if records != [] && !R.Conflicts(reg.byObject, records[0]) {
      assert records[0] in records && forall r <- records[1..] :: r in records;
      PublishKeepsLegit(rep, R.PublishOne(reg, records[0]), records[1..]);
    }
  }

  /** Records published in order, each evidence behind its parent, leave every parent indexed, wherever they stop. */
  lemma {:induction false} PublishKeepsParents(rep: Report, reg: R.Registry, scope: R.Scope, records: seq<R.Record>)
    requires ParentsIndexed(rep, reg)
    requires forall r <- records :: r.scope == scope
    requires forall i | 0 <= i < |records| && records[i].kind.Evidence? :: BehindParent(rep, reg.byObject, scope, records, i)
    ensures ParentsIndexed(rep, R.Publish(reg, records).0)
    decreases |records|
  {
    if records != [] && !R.Conflicts(reg.byObject, records[0]) {
      var r, rest, reg' := records[0], records[1..], R.PublishOne(reg, records[0]);
      assert r in records && forall x <- rest :: x in records;
      assert r.kind.Evidence? ==> BehindParent(rep, reg.byObject, scope, records, 0);
      forall i | 0 <= i < |rest| && rest[i].kind.Evidence? ensures BehindParent(rep, reg'.byObject, scope, rest, i) {
        assert rest[i] == records[i + 1] && BehindParent(rep, reg.byObject, scope, records, i + 1);
        var key := ParentKey(scope, ParentOf(rep, rest[i].objectId));
        if key !in reg'.byObject {
          var j :| 0 <= j < i + 1 && R.KeyOf(records[j]) == key;
          assert j > 0 && rest[j - 1] == records[j];
        }
      }
      assert ParentsIndexed(rep, reg');
      PublishKeepsParents(rep, reg', scope, rest);
    }
  }

  lemma CommitKeepsOk(rep: Report, reg: R.Registry, b: R.Batch, items: seq<Item>)
    requires RecordsLegit(rep, reg) && ParentsIndexed(rep, reg) && BatchOk(rep, reg, b, items)
    ensures RecordsLegit(rep, R.Commit(reg, b).0) && ParentsIndexed(rep, R.Commit(reg, b).0)
  {
    hide LegitRecord, R.Publish, TodoParents, LegitItems;
    if !b.committed && IsCurrent(reg, b.scope) {
      PublishKeepsLegit(rep, reg, b.staged);
      PublishKeepsParents(rep, reg, b.scope, b.staged);
    }
  }

  lemma FinishKeepsInv(rep: Report, w: World, id: nat)
    requires Inv(rep, w)
    ensures Inv(rep, Next(rep, w, Finish(id)))
  {
    hide R.Inv, LegitRecord, BatchOk, R.Grows, R.Commit, ParentsIndexed, RecordsLegit;
    if id in w.todo && w.todo[id] == [] {
      var sys := R.Next(w.sys, R.CommitBatch(id));
      R.NextKeepsInv(w.sys, R.CommitBatch(id));
      assert BatchOk(rep, w.sys.reg, w.sys.batches[id], w.todo[id]);
      CommitKeepsOk(rep, w.sys.reg, w.sys.batches[id], w.todo[id]);
      CommittedBatch(w.sys.reg, w.sys.batches[id]);
      R.NextKeepsScopes(w.sys, R.CommitBatch(id));
      forall k | k in w.todo ensures BatchOk(rep, sys.reg, sys.batches[k], w.todo[k]) {
        assert BatchOk(rep, w.sys.reg, w.sys.batches[k], w.todo[k]);
        GrowthKeepsBatchOk(rep, w.sys.reg, sys.reg, w.sys.batches[k], w.todo[k]);
        if k == id {
          ClosedBatchOk(rep, sys.reg, w.sys.batches[k], sys.batches[k]);
        }
      }
    }
  }

  lemma CommittedBatch(reg: R.Registry, b: R.Batch)
    ensures R.Commit(reg, b).1.Ok? ==> R.Commit(reg, b).1.value == b.(committed := true)
  {
    hide R.Publish;
  }

  lemma ClosedBatchOk(rep: Report, reg: R.Registry, b: R.Batch, b': R.Batch)
    requires BatchOk(rep, reg, b, []) && (b' == b || b' == b.(committed := true))
    ensures BatchOk(rep, reg, b', [])
  {
    hide LegitRecord;
  }

  lemma NextKeepsInv(rep: Report, w: World, step: Step)
    requires WellFormed(rep) && Inv(rep, w)
    ensures Inv(rep, Next(rep, w, step))
  {
    hide WellFormed, R.Inv, R.Grows, R.Bind, RecordsLegit, ParentsIndexed, BatchOk;
    match step
    case Start(id, sessionId, call) => StartKeepsInv(rep, w, id, sessionId, call);
    case ExposeNext(id) => ExposeKeepsInv(rep, w, id);
    case Finish(id) => FinishKeepsInv(rep, w, id);
    case IssueCursor(rstep) =>
      if rstep.IssueSearch? || rstep.IssueComments? {
        R.NextKeepsInv(w.sys, rstep);
        QuietStepKeepsInv(rep, w, R.Next(w.sys, rstep));
      }
    case BindSession(sessionId, binding, force) =>
      R.NextKeepsInv(w.sys, R.BindSession(sessionId, binding, force));
      BindTouchesScopes(w.sys.reg, sessionId, binding, force);
      QuietStepKeepsInv(rep, w, R.Next(w.sys, R.BindSession(sessionId, binding, force)));
  }

  lemma BindTouchesScopes(reg: R.Registry, sessionId: string, binding: R.Binding, force: bool)
    ensures var bound := R.Bind(reg, sessionId, binding, force);
            bound.Ok? ==> bound.value.records == reg.records
  {
  }

  lemma NextGrows(rep: Report, w: World, step: Step)
    requires R.Inv(w.sys)
    ensures R.Grows(w.sys.reg, Next(rep, w, step).sys.reg)
  {
    hide R.Inv, R.Grows, R.Next, ItemsOf;
    R.GrowsFromItself(w.sys.reg);
    match step
    case Start(id, sessionId, call) => R.NextKeepsInv(w.sys, R.OpenBatch(id, sessionId));
    case ExposeNext(id) =>
      if id in w.todo && w.todo[id] != [] {
        var x := w.todo[id][0];
        R.NextKeepsInv(w.sys, R.ExposeObject(id, x.kind, x.objectId, x.origin));
      }
    case Finish(id) => R.NextKeepsInv(w.sys, R.CommitBatch(id));
    case IssueCursor(rstep) => R.NextKeepsInv(w.sys, rstep);
    case BindSession(sessionId, binding, force) => R.NextKeepsInv(w.sys, R.BindSession(sessionId, binding, force));
  }

  lemma {:induction false} RunKeepsInv(rep: Report, w: World, steps: seq<Step>)
    requires WellFormed(rep) && Inv(rep, w)
    ensures Inv(rep, Run(rep, w, steps)) && R.Grows(w.sys.reg, Run(rep, w, steps).sys.reg)
    decreases |steps|
  {
    hide WellFormed, Next, R.Inv, R.Grows, RecordsLegit, ParentsIndexed, BatchOk;
    R.GrowsFromItself(w.sys.reg);
    if steps != [] {
      NextKeepsInv(rep, w, steps[0]);
      NextGrows(rep, w, steps[0]);
      RunKeepsInv(rep, Next(rep, w, steps[0]), steps[1..]);
      R.GrowsTransitive(w.sys.reg, Next(rep, w, steps[0]).sys.reg, Run(rep, w, steps).sys.reg);
    }
  }

  // ---- closure ----

  /** `ref_for`. */
  function RefFor(reg: R.Registry, sessionId: string, kind: R.Kind, objectId: string): Result<string> {
    if sessionId !in reg.scopes then Err("investigation_scope_unbound")
    else
      var r := R.RecordForObject(reg, reg.scopes[sessionId], kind, objectId);
      if r.None? then Err("unknown_ref") else Ok(r.value.token)
  }

  /** One evidence of `read_evidence`: the object and the reference of its parent post. */
  function ReadEvidence(rep: Report, reg: R.Registry, sessionId: string, token: string): Result<(string, string)> {
    var r := R.Resolve(reg, sessionId, token, Some(R.Evidence));
    if r.Err? then Err(r.code)
    else
      var valid := ValidateEvidence(rep, r.value);
      if valid.Err? then Err(valid.code)
      else
        var parent := RefFor(reg, sessionId, R.Post, ParentOf(rep, r.value.objectId));
        if parent.Err? then Err(parent.code) else Ok((r.value.objectId, parent.value))
  }

  /** Every tool that consumes this kind of reference accepts this one. */
  ghost predicate Accepted(rep: Report, reg: R.Registry, sessionId: string, token: string, kind: R.Kind) {
    match kind
    case Category => !rep.published && !rep.unified ==> forall n :: ItemsOf(rep, reg, sessionId, ListCategoryPosts(token, n)).Ok?
    case Finding => rep.published && !rep.unified ==> forall n :: ItemsOf(rep, reg, sessionId, ListFindingPosts(token, n)).Ok?
    case Post =>
      && (forall types, n :: ItemsOf(rep, reg, sessionId, ListEvidence(token, types, n)).Ok?)
      && (rep.published && !rep.unified ==> forall i, n :: ItemsOf(rep, reg, sessionId, ListRiskComments(token, i, n)).Ok?)
    case Evidence =>
      && ReadEvidence(rep, reg, sessionId, token).Ok?
      && var parent := ReadEvidence(rep, reg, sessionId, token).value.1;
      && R.Resolve(reg, sessionId, parent, Some(R.Post)).Ok?
      && R.Resolve(reg, sessionId, parent, Some(R.Post)).value.objectId == ParentOf(rep, reg.records[token].objectId)
      && forall types, n :: ItemsOf(rep, reg, sessionId, ListEvidence(parent, types, n)).Ok?
    case Comment =>
      token in reg.records && exists p :: p in rep.riskComments && ValidateComment(rep, reg.records[token], p).Ok?
  }

  lemma ResolvedIsLegit(rep: Report, reg: R.Registry, sessionId: string, token: string, kind: R.Kind)
    requires R.Valid(reg) && RecordsLegit(rep, reg) && R.Resolve(reg, sessionId, token, Some(kind)).Ok?
    ensures
      var r := R.Resolve(reg, sessionId, token, Some(kind)).value;
      && token in reg.records && reg.records[token] == r && LegitRecord(rep, r) && r.kind == kind
      && sessionId in reg.scopes && r.scope == reg.scopes[sessionId]
  {
    hide LegitRecord;
    R.ResolvedIsCurrent(reg, sessionId, token, Some(kind));
  }

  lemma PostIsAccepted(rep: Report, reg: R.Registry, sessionId: string, token: string)
    requires WellFormed(rep) && R.Valid(reg) && RecordsLegit(rep, reg)
    requires R.Resolve(reg, sessionId, token, Some(R.Post)).Ok?
    ensures Accepted(rep, reg, sessionId, token, R.Post)
  {
    hide WellFormed, R.Valid, R.Resolve, ValidatePost, LegitRecord, RecordsLegit;
    ResolvedIsLegit(rep, reg, sessionId, token, R.Post);
    LegitIsAccepted(rep, R.Resolve(reg, sessionId, token, Some(R.Post)).value);
  }

  lemma ParentIsFound(rep: Report, sys: R.System, sessionId: string, token: string)
    requires R.Inv(sys) && ParentsIndexed(rep, sys.reg) && sessionId in sys.reg.scopes && token in sys.reg.records
    requires sys.reg.records[token].kind.Evidence? && sys.reg.records[token].scope == sys.reg.scopes[sessionId]
    ensures
      var postId := ParentOf(rep, sys.reg.records[token].objectId);
      var parent := RefFor(sys.reg, sessionId, R.Post, postId);
      && parent.Ok? && R.Resolve(sys.reg, sessionId, parent.value, Some(R.Post)).Ok?
      && R.Resolve(sys.reg, sessionId, parent.value, Some(R.Post)).value.objectId == postId
  {
    var scope, postId := sys.reg.scopes[sessionId], ParentOf(rep, sys.reg.records[token].objectId);
    var key := ParentKey(scope, postId);
    assert key in sys.reg.byObject;
    var r := sys.reg.records[sys.reg.byObject[key]];
    assert R.KeyOf(r) == key && R.Known(sys.reg, r.scope);
    R.ResolvedIsCurrent(sys.reg, sessionId, r.token, Some(R.Post));
  }

  lemma EvidenceIsAccepted(rep: Report, sys: R.System, sessionId: string, token: string)
    requires WellFormed(rep) && R.Inv(sys) && RecordsLegit(rep, sys.reg) && ParentsIndexed(rep, sys.reg)
    requires R.Resolve(sys.reg, sessionId, token, Some(R.Evidence)).Ok?
    ensures Accepted(rep, sys.reg, sessionId, token, R.Evidence)
  {
    hide WellFormed, R.Inv, R.Valid, R.Resolve, ValidateEvidence, ValidatePost, LegitRecord, RecordsLegit, ParentsIndexed, RefFor;
    SystemIsValid(sys);
    ResolvedIsLegit(rep, sys.reg, sessionId, token, R.Evidence);
    LegitIsAccepted(rep, R.Resolve(sys.reg, sessionId, token, Some(R.Evidence)).value);
    ParentIsFound(rep, sys, sessionId, token);
    var parent := RefFor(sys.reg, sessionId, R.Post, ParentOf(rep, sys.reg.records[token].objectId)).value;
    PostIsAccepted(rep, sys.reg, sessionId, parent);
  }

  /** No check rejects a reference that the service itself issued, and `read_evidence` finds the parent post. */
  lemma ResolvedIsAccepted(rep: Report, w: World, sessionId: string, token: string, kind: R.Kind)
    requires WellFormed(rep) && Inv(rep, w) && R.Resolve(w.sys.reg, sessionId, token, Some(kind)).Ok?
    ensures Accepted(rep, w.sys.reg, sessionId, token, kind)
  {
    hide WellFormed, R.Inv, R.Valid, R.Resolve, LegitRecord, RecordsLegit, ParentsIndexed, BatchOk,
         ValidateCategory, ValidateFinding, ValidateComment;
    SystemIsValid(w.sys);
    ResolvedIsLegit(rep, w.sys.reg, sessionId, token, kind);
    LegitIsAccepted(rep, R.Resolve(w.sys.reg, sessionId, token, Some(kind)).value);
    if kind.Post? {
      PostIsAccepted(rep, w.sys.reg, sessionId, token);
    } else if kind.Evidence? {
      EvidenceIsAccepted(rep, w.sys, sessionId, token);
    }
  }

  /** A tool call that commits has published every reference it shows, under the current scope. */
  lemma FinishedReferencesResolve(rep: Report, w: World, id: nat)
    requires Inv(rep, w) && id in w.todo && w.todo[id] == [] && !w.sys.batches[id].committed
    requires R.Commit(w.sys.reg, w.sys.batches[id]).1.Ok?
    ensures
      var b, reg' := w.sys.batches[id], Next(rep, w, Finish(id)).sys.reg;
      forall r <- b.staged ::
        && R.Resolve(reg', b.scope.sessionId, r.token, Some(r.kind)).Ok?
        && R.Resolve(reg', b.scope.sessionId, r.token, Some(r.kind)).value.objectId == r.objectId
  {
    hide R.Inv, LegitRecord, BatchOk, R.Grows, R.Publish, ParentsIndexed, RecordsLegit, R.Valid;
    var b, sys := w.sys.batches[id], R.Next(w.sys, R.CommitBatch(id));
    R.NextKeepsInv(w.sys, R.CommitBatch(id));
    R.NextKeepsScopes(w.sys, R.CommitBatch(id));
    SystemIsValid(sys);
    BatchScopes(rep, w.sys.reg, b, w.todo[id]);
    StagedAreMinted(w.sys, id);
    forall r | r in b.staged
      ensures R.Resolve(sys.reg, b.scope.sessionId, r.token, Some(r.kind)).Ok?
      ensures R.Resolve(sys.reg, b.scope.sessionId, r.token, Some(r.kind)).value.objectId == r.objectId
    {
      PublishedHasToken(w.sys.reg, b.staged, r);
      MintedRecord(sys, r);
      R.ResolvedIsCurrent(sys.reg, b.scope.sessionId, r.token, Some(r.kind));
    }
  }

  lemma BatchScopes(rep: Report, reg: R.Registry, b: R.Batch, items: seq<Item>)
    requires BatchOk(rep, reg, b, items) && IsCurrent(reg, b.scope)
    ensures forall r <- b.staged :: r.scope == b.scope
  {
  }

  lemma StagedAreMinted(sys: R.System, id: nat)
    requires R.Inv(sys) && id in sys.batches
    ensures forall r <- sys.batches[id].staged :: R.Minted(sys.minted, r)
  {
  }

  lemma MintedRecord(sys: R.System, r: R.Record)
    requires R.Inv(sys) && R.Minted(sys.minted, r) && r.token in sys.reg.records
    ensures R.IdentityOf(sys.reg.records[r.token]) == R.IdentityOf(r)
  {
    assert R.Minted(sys.minted, sys.reg.records[r.token]);
  }

  lemma {:induction false} PublishedHasToken(reg: R.Registry, records: seq<R.Record>, r: R.Record)
    requires R.Publish(reg, records).1 && (r in records || r.token in reg.records)
    ensures r.token in R.Publish(reg, records).0.records
    decreases |records|
  {
    if records != [] {
      assert r in records ==> r == records[0] || r in records[1..];
      PublishedHasToken(R.PublishOne(reg, records[0]), records[1..], r);
    }
  }

  /**
    Navigation closure: in any run, a reference that once resolved keeps being accepted by every
    tool that consumes its kind, for as long as its session keeps its generation.
  */
  lemma AcceptedForever(rep: Report, w: World, steps: seq<Step>, sessionId: string, token: string, kind: R.Kind)
    requires WellFormed(rep) && Inv(rep, w) && R.Resolve(w.sys.reg, sessionId, token, Some(kind)).Ok?
    requires
      var reg' := Run(rep, w, steps).sys.reg;
      sessionId in reg'.scopes && sessionId in w.sys.reg.scopes && reg'.scopes[sessionId] == w.sys.reg.scopes[sessionId]
    ensures
      var was, now := R.Resolve(w.sys.reg, sessionId, token, Some(kind)).value,
                      R.Resolve(Run(rep, w, steps).sys.reg, sessionId, token, Some(kind));
      && now.Ok? && R.IdentityOf(now.value) == R.IdentityOf(was)
      && Accepted(rep, Run(rep, w, steps).sys.reg, sessionId, token, kind)
  {
    hide WellFormed, R.Inv, R.Valid, RecordsLegit, ParentsIndexed, BatchOk, Run, Accepted;
    RunKeepsInv(rep, w, steps);
    var w' := Run(rep, w, steps);
    SystemIsValid(w.sys);
    SystemIsValid(w'.sys);
    R.ResolvedIsCurrent(w.sys.reg, sessionId, token, Some(kind));
    R.ResolvedIsCurrent(w'.sys.reg, sessionId, token, Some(kind));
    ResolvedIsAccepted(rep, w', sessionId, token, kind);
  }

  lemma InitialInv(rep: Report, nonce: string)
    ensures Inv(rep, Initial(nonce))
  {
  }

  // ---- a tool call without interference ----

  datatype Shown = Shown(reg: R.Registry, batch: R.Batch, tokens: seq<string>)

  /** Exposing a list of items, one after the other. */
  function ExposeAll(reg: R.Registry, batch: R.Batch, items: seq<Item>): (s: Shown)
    requires batch.scope.sessionId in reg.scopes
    ensures s.reg.scopes == reg.scopes && s.batch.scope == batch.scope && s.batch.committed == batch.committed
    ensures |s.tokens| == |items|
    decreases |items|
  {
    if items == [] then Shown(reg, batch, [])
    else
      var e := R.Expose(reg, batch, items[0].kind, items[0].objectId, items[0].origin);
      var rest := ExposeAll(e.reg, e.batch, items[1..]);
      rest.(tokens := [e.token] + rest.tokens)
  }

  ghost predicate HasToken(staged: seq<R.Record>, token: string) {
    exists y <- staged :: y.token == token
  }

  lemma {:induction false} StageKeepsTokens(staged: seq<R.Record>, r: R.Record)
    ensures forall t :: HasToken(staged, t) ==> HasToken(R.Stage(staged, r), t)
    ensures HasToken(R.Stage(staged, r), r.token)
  {
    StagePlaces(staged, r);
    forall t | HasToken(staged, t) ensures HasToken(R.Stage(staged, r), t) {
      var x :| x in staged && x.token == t;
      var i :| 0 <= i < |staged| && staged[i] == x;
      assert R.Stage(staged, r)[i].token == t && R.Stage(staged, r)[i] in R.Stage(staged, r);
    }
  }

  /** Every token of the result is staged in the batch that the call then commits. */
  lemma {:induction false} ShownIsStaged(reg: R.Registry, batch: R.Batch, items: seq<Item>)
    requires batch.scope.sessionId in reg.scopes
    requires forall t <- reg.records :: reg.records[t].token == t
    ensures
      var s := ExposeAll(reg, batch, items);
      && (forall t :: HasToken(batch.staged, t) ==> HasToken(s.batch.staged, t))
      && (forall t <- s.tokens :: HasToken(s.batch.staged, t))
    decreases |items|
  {
    if items != [] {
      hide R.Stage, HasToken;
      var e := R.Expose(reg, batch, items[0].kind, items[0].objectId, items[0].origin);
      var r := Staged(reg, batch, items[0]);
      StageKeepsTokens(batch.staged, r);
      ShownIsStaged(e.reg, e.batch, items[1..]);
    }
  }

  function Staged(reg: R.Registry, batch: R.Batch, x: Item): (r: R.Record)
    requires batch.scope.sessionId in reg.scopes && forall t <- reg.records :: reg.records[t].token == t
    ensures
      var e := R.Expose(reg, batch, x.kind, x.objectId, x.origin);
      r.token == e.token && e.batch == batch.(staged := R.Stage(batch.staged, r)) && e.reg.records == reg.records
  {
    var existing := R.RecordForObject(reg, reg.scopes[batch.scope.sessionId], x.kind, x.objectId);
    if existing.Some? then
      var found := existing.value;
      found.(origins := if x.origin in found.origins then found.origins else found.origins + [x.origin])
    else R.Record(R.NextToken(reg, R.Prefix(x.kind)), batch.scope, x.kind, x.objectId, [x.origin])
  }

  /** The loop of a tool over what it shows, and its commit. */
  method Show(batch: R.ReferenceBatch, items: seq<Item>) returns (tokens: Result<seq<string>>)
    requires !batch.committed && batch.scope.sessionId in batch.registry.scopes
    modifies batch, batch.registry
    ensures
      var s := ExposeAll(old(batch.registry.View()), old(batch.View()), items);
      var (reg, committed) := R.Commit(s.reg, s.batch);
      && batch.registry.View() == reg
      && tokens == (if committed.Ok? then Ok(s.tokens) else Err(committed.code))
  {
    hide R.Expose, R.Commit;
    var shown := [];
    for i := 0 to |items|
      invariant !batch.committed && batch.scope.sessionId in batch.registry.scopes
      invariant
        var s := ExposeAll(batch.registry.View(), batch.View(), items[i..]);
        s.(tokens := shown + s.tokens) == ExposeAll(old(batch.registry.View()), old(batch.View()), items)
    {
      assert items[i..][1..] == items[i + 1..];
      ExposeKeepsOpen(batch.registry.View(), batch.View(), items[i]);
      var token := batch.ExposeObject(items[i].kind, items[i].objectId, items[i].origin);
      shown := shown + [token];
    }
    assert items[|items|..] == [] && shown + [] == shown;
    var outcome := batch.CommitOnce();
    tokens := if outcome.Ok? then Ok(shown) else Err(outcome.code);
  }

  lemma ExposeKeepsOpen(reg: R.Registry, batch: R.Batch, x: Item)
    requires batch.scope.sessionId in reg.scopes
    ensures
      var e := R.Expose(reg, batch, x.kind, x.objectId, x.origin);
      e.reg.scopes == reg.scopes && e.batch.scope == batch.scope && e.batch.committed == batch.committed
  {
  }
}
