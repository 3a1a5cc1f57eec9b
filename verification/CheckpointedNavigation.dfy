/**
  The tools of a published report, run with checkpoints: after a crash at any point, a completed
  result comes back with references that every tool still accepts.
*/
module CheckpointedNavigation {
  import opened Wrappers
  import opened Navigation
  import opened ReferenceState
  import opened SessionStore
  import E = CheckpointedExecution
  import L = ToolExecutionLedger
  import N = NavigationRuns
  import R = ReportTaskRefs

  /** Ledger, references and store of the process, and what every open tool call still has to expose. */
  datatype World = World(exec: E.World, todo: map<nat, seq<Item>>)

  datatype Step =
    | Navigate(nav: N.Step)
    | Execute(step: E.Step)

  function Reg(w: World): R.Registry {
    w.exec.store.sys.reg
  }

  function NavigationWorld(w: World): N.World {
    N.World(w.exec.store.sys, w.todo)
  }

  /** The tools use the registry only as navigation does; all else is a step of the checkpointed execution. */
  ghost function Next(rep: Report, w: World, sessionId: string, binding: R.Binding, step: Step): World
    requires sessionId != ""
  {
    match step
    case Navigate(nav) =>
      if nav.BindSession? then w
      else
        var n := N.Next(rep, NavigationWorld(w), nav);
        World(w.exec.(store := w.exec.store.(sys := n.sys)), n.todo)
    case Execute(s) =>
      if s.UseRegistry? then w
      else World(E.Next(w.exec, sessionId, binding, s), if s.Crash? then map[] else w.todo)
  }

  ghost function Run(rep: Report, w: World, sessionId: string, binding: R.Binding, steps: seq<Step>): World
    requires sessionId != ""
    decreases |steps|
  {
    if steps == [] then w else Run(rep, Next(rep, w, sessionId, binding, steps[0]), sessionId, binding, steps[1..])
  }

  function Initial(nonce: string): World {
    World(E.Initial(nonce), map[])
  }

  // ---- the invariant ----

  ghost predicate Navigates(rep: Report, reg: R.Registry) {
    N.RecordsLegit(rep, reg) && N.ParentsIndexed(rep, reg)
  }

  ghost predicate Inv(rep: Report, w: World, sessionId: string, binding: R.Binding) {
    && E.Inv(w.exec, sessionId, binding)
    && N.Inv(rep, NavigationWorld(w))
    && (w.exec.store.saved.Some? ==> Navigates(rep, w.exec.store.saved.value.from))
  }

  lemma InitialInv(rep: Report, nonce: string, sessionId: string, binding: R.Binding)
    ensures Inv(rep, Initial(nonce), sessionId, binding)
  {
    N.InitialInv(rep, nonce);
    hide N.Inv;
    assert N.Initial(nonce) == NavigationWorld(Initial(nonce));
  }

  /** Every step of navigation is one step on the registry, or none. */
  lemma NavigationIsUse(rep: Report, n: N.World, nav: N.Step) returns (step: R.Step)
    requires !nav.BindSession?
    ensures !step.BindSession? && (N.Next(rep, n, nav).sys == n.sys || N.Next(rep, n, nav).sys == R.Next(n.sys, step))
  {
    hide ItemsOf;
    match nav
    case Start(id, sessionId, call) => step := R.OpenBatch(id, sessionId);
    case ExposeNext(id) =>
      step := if id in n.todo && n.todo[id] != []
        then R.ExposeObject(id, n.todo[id][0].kind, n.todo[id][0].objectId, n.todo[id][0].origin) else R.CommitBatch(id);
    case Finish(id) => step := R.CommitBatch(id);
    case IssueCursor(rstep) => step := if rstep.BindSession? then R.CommitBatch(0) else rstep;
  }

  lemma NavigateKeepsInv(rep: Report, w: World, sessionId: string, binding: R.Binding, nav: N.Step)
    requires WellFormed(rep) && Inv(rep, w, sessionId, binding) && sessionId != "" && !nav.BindSession?
    ensures Inv(rep, Next(rep, w, sessionId, binding, Navigate(nav)), sessionId, binding)
  {
    hide WellFormed, E.Inv, N.Inv, N.Next, Navigates, R.Next;
    N.NextKeepsInv(rep, NavigationWorld(w), nav);
    var step := NavigationIsUse(rep, NavigationWorld(w), nav);
    E.NextKeepsInv(w.exec, sessionId, binding, E.UseRegistry(step));
    var exec := Next(rep, w, sessionId, binding, Navigate(nav)).exec;
    assert exec == w.exec || exec == E.Next(w.exec, sessionId, binding, E.UseRegistry(step));
  }

  lemma NavigationHolds(rep: Report, n: N.World)
    requires N.Inv(rep, n)
    ensures Navigates(rep, n.sys.reg)
  {
  }

  /** Steps that leave the registry alone. */
  lemma QuietKeepsInv(rep: Report, w: World, sessionId: string, binding: R.Binding, s: E.Step)
    requires Inv(rep, w, sessionId, binding) && sessionId != ""
    requires s.Enter? || s.ToolReturns? || s.ToolRaises? || s.Checkpoint? || s.Settle? || s.RecoverOrphans?
    ensures Inv(rep, Next(rep, w, sessionId, binding, Execute(s)), sessionId, binding)
  {
    hide E.Inv, N.Inv, L.Next, E.Returnable, IsDump;
    E.NextKeepsInv(w.exec, sessionId, binding, s);
    NavigationHolds(rep, NavigationWorld(w));
    hide Navigates;
  }

  lemma CrashKeepsInv(rep: Report, w: World, sessionId: string, binding: R.Binding, nonce: string)
    requires Inv(rep, w, sessionId, binding) && sessionId != ""
    ensures Inv(rep, Next(rep, w, sessionId, binding, Execute(E.Crash(nonce))), sessionId, binding)
  {
    hide E.Inv, N.Inv, Navigates, L.Next, N.Initial;
    E.NextKeepsInv(w.exec, sessionId, binding, E.Crash(nonce));
    N.InitialInv(rep, nonce);
    CrashedIsInitial(rep, w, sessionId, binding, nonce);
  }

  lemma CrashedIsInitial(rep: Report, w: World, sessionId: string, binding: R.Binding, nonce: string)
    requires sessionId != ""
    ensures N.Initial(nonce) == NavigationWorld(Next(rep, w, sessionId, binding, Execute(E.Crash(nonce))))
  {
    hide L.Next;
    assert N.Initial(nonce) == NavigationWorld(Next(rep, w, sessionId, binding, Execute(E.Crash(nonce))));
  }

  // ---- binding and resetting ----

  lemma LoadedIsLegit(rep: Report, reg: R.Registry, from: R.Registry, sessionId: string, d: Dump)
    requires N.RecordsLegit(rep, reg) && N.RecordsLegit(rep, from) && IsDump(from, sessionId, d)
    requires sessionId in reg.scopes && Load(reg, sessionId, d).Ok?
    ensures N.RecordsLegit(rep, Load(reg, sessionId, d).value)
  {
    hide LegitRecord;
    assert forall r <- d.records :: RecordToken(r) == r.token && r.token in from.records && from.records[r.token] == r;
    UpdateAllSpec(reg.records, d.records, RecordToken);
  }

  /** Loading again what was saved keeps the invariant of navigation, with all its open calls. */
  lemma ReloadKeepsNavigation(rep: Report, n: N.World, from: R.Registry, sessionId: string, d: Dump)
    requires N.Inv(rep, n) && sessionId in n.sys.reg.scopes && N.RecordsLegit(rep, from)
    requires R.Valid(from) && IsDump(from, sessionId, d)
    requires R.Grows(from, n.sys.reg) && n.sys.reg.scopes[sessionId] == from.scopes[sessionId]
    ensures Load(n.sys.reg, sessionId, d).Ok?
    ensures N.Inv(rep, n.(sys := n.sys.(reg := Load(n.sys.reg, sessionId, d).value)))
  {
    ReloadKeepsInv(n.sys, from, sessionId, d);
    ReloadedIndex(n.sys, from, sessionId, d);
    LoadedIsLegit(rep, n.sys.reg, from, sessionId, d);
    ReloadedKeepsIdentities(n.sys, from, sessionId, d);
    hide R.Inv, R.Grows, N.RecordsLegit, N.BatchOk, IsDump, Load, R.Valid, ParentOf;
    var reg, reg' := n.sys.reg, Load(n.sys.reg, sessionId, d).value;
    assert N.ParentsIndexed(rep, reg') by {
      SameParents(rep, reg, reg');
    }
    forall id | id in n.todo ensures N.BatchOk(rep, reg', n.sys.batches[id], n.todo[id]) {
      N.GrowthKeepsBatchOk(rep, reg, reg', n.sys.batches[id], n.todo[id]);
    }
  }

  lemma ReloadedKeepsIdentities(sys: R.System, from: R.Registry, sessionId: string, d: Dump)
    requires R.Inv(sys) && sessionId in sys.reg.scopes && R.Valid(from) && IsDump(from, sessionId, d) && R.Grows(from, sys.reg)
    requires Load(sys.reg, sessionId, d).Ok?
    ensures
      var reg, reg' := sys.reg, Load(sys.reg, sessionId, d).value;
      && reg'.byObject == reg.byObject && reg'.records.Keys == reg.records.Keys
      && forall t <- reg'.records :: R.IdentityOf(reg'.records[t]) == R.IdentityOf(reg.records[t])
  {
    ReloadedIndex(sys, from, sessionId, d);
    ReloadedRecords(sys.reg, from, sessionId, d.records);
  }

  lemma SameParents(rep: Report, reg: R.Registry, reg': R.Registry)
    requires N.ParentsIndexed(rep, reg) && reg'.byObject == reg.byObject && reg'.records.Keys == reg.records.Keys
    requires forall t <- reg'.records :: R.IdentityOf(reg'.records[t]) == R.IdentityOf(reg.records[t])
    ensures N.ParentsIndexed(rep, reg')
  {
    hide ParentOf;
    forall t | t in reg'.records && reg'.records[t].kind.Evidence?
      ensures ParentKey(reg'.records[t].scope, ParentOf(rep, reg'.records[t].objectId)) in reg'.byObject
    {
      assert R.IdentityOf(reg'.records[t]) == R.IdentityOf(reg.records[t]) && t in reg.records;
    }
  }

  lemma BindKeepsNavigation(rep: Report, w: World, sessionId: string, binding: R.Binding)
    requires WellFormed(rep) && Inv(rep, w, sessionId, binding) && sessionId != ""
    ensures N.Inv(rep, N.World(Bound(w.exec.store, sessionId, binding).sys, w.todo))
  {
    var st, n := w.exec.store, NavigationWorld(w);
    if st.saved.None? {
      N.NextKeepsInv(rep, n, N.BindSession(sessionId, binding, false));
      hide N.Inv, WellFormed;
      assert N.World(Bound(st, sessionId, binding).sys, w.todo) == N.Next(rep, n, N.BindSession(sessionId, binding, false));
    } else if sessionId !in st.sys.reg.scopes {
      BindFresh(st, sessionId, binding);
      FreshNavigation(rep, w, sessionId, binding);
    } else {
      ReloadKeepsNavigation(rep, n, st.saved.value.from, sessionId, st.saved.value.dump);
      BoundAgain(st, sessionId, binding);
    }
  }

  lemma FreshNavigation(rep: Report, w: World, sessionId: string, binding: R.Binding)
    requires Inv(rep, w, sessionId, binding) && sessionId != "" && w.exec.store.saved.Some? && sessionId !in Reg(w).scopes
    ensures
      var from := w.exec.store.saved.value.from;
      N.Inv(rep, N.World(R.System(from, map[], MintedOf(from)), w.todo))
  {
    var st := w.exec.store;
    BindFresh(st, sessionId, binding);
    assert w.todo == map[];
  }

  lemma BindKeepsInv(rep: Report, w: World, sessionId: string, binding: R.Binding)
    requires WellFormed(rep) && Inv(rep, w, sessionId, binding) && sessionId != ""
    ensures Inv(rep, Next(rep, w, sessionId, binding, Execute(E.BindSession)), sessionId, binding)
  {
    E.NextKeepsInv(w.exec, sessionId, binding, E.BindSession);
    BindKeepsNavigation(rep, w, sessionId, binding);
    BoundKeepsSaved(w.exec.store, sessionId, binding);
    hide E.Inv, N.Inv, Navigates, Bound;
  }

  lemma BoundKeepsSaved(st: Store, sessionId: string, binding: R.Binding)
    requires sessionId != ""
    ensures Bound(st, sessionId, binding).saved == st.saved
  {
    hide Load;
  }

  lemma ResetKeepsInv(rep: Report, w: World, sessionId: string, binding: R.Binding, dump: Dump)
    requires WellFormed(rep) && Inv(rep, w, sessionId, binding) && sessionId != ""
    ensures Inv(rep, Next(rep, w, sessionId, binding, Execute(E.ResetGeneration(dump))), sessionId, binding)
  {
    E.NextKeepsInv(w.exec, sessionId, binding, E.ResetGeneration(dump));
    N.NextKeepsInv(rep, NavigationWorld(w), N.BindSession(sessionId, binding, true));
    hide E.Inv, N.Inv, Navigates, WellFormed, IsDump;
    var n := N.World(Reset(w.exec.store, sessionId, binding).sys, w.todo);
    assert n == N.Next(rep, NavigationWorld(w), N.BindSession(sessionId, binding, true));
    NavigationHolds(rep, n);
  }

  lemma NextKeepsInv(rep: Report, w: World, sessionId: string, binding: R.Binding, step: Step)
    requires WellFormed(rep) && Inv(rep, w, sessionId, binding) && sessionId != ""
    ensures Inv(rep, Next(rep, w, sessionId, binding, step), sessionId, binding)
  {
    hide WellFormed, Inv;
    if step.Navigate? {
      if !step.nav.BindSession? {
        NavigateKeepsInv(rep, w, sessionId, binding, step.nav);
      }
    } else if step.step.BindSession? {
      BindKeepsInv(rep, w, sessionId, binding);
    } else if step.step.ResetGeneration? {
      ResetKeepsInv(rep, w, sessionId, binding, step.step.dump);
    } else if step.step.Crash? {
      CrashKeepsInv(rep, w, sessionId, binding, step.step.nonce);
    } else if !step.step.UseRegistry? {
      QuietKeepsInv(rep, w, sessionId, binding, step.step);
    }
  }

  lemma {:induction false} RunKeepsInv(rep: Report, w: World, sessionId: string, binding: R.Binding, steps: seq<Step>)
    requires WellFormed(rep) && Inv(rep, w, sessionId, binding) && sessionId != ""
    ensures Inv(rep, Run(rep, w, sessionId, binding, steps), sessionId, binding)
    decreases |steps|
  {
    hide WellFormed, Inv, Next;
    if steps != [] {
      NextKeepsInv(rep, w, sessionId, binding, steps[0]);
      RunKeepsInv(rep, Next(rep, w, sessionId, binding, steps[0]), sessionId, binding, steps[1..]);
    }
  }

  // ---- replay and acceptance together ----

  /** The reference stands for what it stood for, and works in every tool that consumes it, or its generation has passed. */
  ghost predicate WorksIffCurrent(rep: Report, reg: R.Registry, sessionId: string, token: string, identity: R.TokenIdentity)
    requires sessionId in reg.scopes
  {
    var answer := R.Resolve(reg, sessionId, token, Some(identity.kind));
    if identity.scope == reg.scopes[sessionId]
    then answer.Ok? && R.IdentityOf(answer.value) == identity && N.Accepted(rep, reg, sessionId, token, identity.kind)
    else answer.Err?
  }

  lemma UsableWorks(rep: Report, w: World, sessionId: string, token: string, identity: R.TokenIdentity)
    requires WellFormed(rep) && N.Inv(rep, NavigationWorld(w)) && sessionId in Reg(w).scopes
    requires E.UsableIffCurrent(Reg(w), sessionId, token, identity)
    ensures WorksIffCurrent(rep, Reg(w), sessionId, token, identity)
  {
    hide WellFormed, N.Inv, R.Resolve, N.Accepted;
    if R.Resolve(Reg(w), sessionId, token, Some(identity.kind)).Ok? {
      N.ResolvedIsAccepted(rep, NavigationWorld(w), sessionId, token, identity.kind);
    }
  }

  ghost predicate ReplaysWorking(rep: Report, w: World, w': World, sessionId: string, key: L.CallKey)
    requires key in w.exec.ledger.rows
  {
    && E.Replays(w.exec, w'.exec, sessionId, key)
    && forall t <- w'.exec.issued[key] | w'.exec.issued[key][t].ObjectTarget? ::
         WorksIffCurrent(rep, Reg(w'), sessionId, t, w'.exec.issued[key][t].identity)
  }

  lemma UnfoldThree(rep: Report, w: World, sessionId: string, binding: R.Binding, a: Step, b: Step, c: Step)
    requires sessionId != ""
    ensures Run(rep, w, sessionId, binding, [a, b, c]) ==
            Next(rep, Next(rep, Next(rep, w, sessionId, binding, a), sessionId, binding, b), sessionId, binding, c)
  {
    hide Next;
    assert [a, b, c][1..] == [b, c] && [b, c][1..] == [c] && [c][1..] == [];
    var w1 := Next(rep, w, sessionId, binding, a);
    assert Run(rep, w1, sessionId, binding, [b, c]) == Run(rep, Next(rep, w1, sessionId, binding, b), sessionId, binding, [c]);
  }

  lemma RestartIsRestarted(rep: Report, w: World, sessionId: string, binding: R.Binding, nonce: string)
    requires sessionId != ""
    ensures
      var steps := [Execute(E.Crash(nonce)), Execute(E.RecoverOrphans), Execute(E.BindSession)];
      Run(rep, w, sessionId, binding, steps).exec == E.Restarted(w.exec, sessionId, binding, nonce)
  {
    UnfoldThree(rep, w, sessionId, binding, Execute(E.Crash(nonce)), Execute(E.RecoverOrphans), Execute(E.BindSession));
    hide Run, L.Next, Bound, Crashed;
  }

  /**
    Crash at any point of any run of report tools, recover, bind and restore: a completed result is kept
    word for word, and each of its references is accepted by every tool that consumes its kind, for the
    object it stood for, exactly when no newer generation was saved meanwhile.
  */
  lemma ReplayedReferencesAreAccepted(rep: Report, sessionId: string, binding: R.Binding, nonce: string, steps: seq<Step>,
                                      key: L.CallKey, nonce': string)
    requires WellFormed(rep) && sessionId != ""
    requires
      var rows := Run(rep, Initial(nonce), sessionId, binding, steps).exec.ledger.rows;
      key in rows && rows[key].status.Completed?
    ensures
      var w := Run(rep, Initial(nonce), sessionId, binding, steps);
      var w' := Run(rep, w, sessionId, binding, [Execute(E.Crash(nonce')), Execute(E.RecoverOrphans), Execute(E.BindSession)]);
      ReplaysWorking(rep, w, w', sessionId, key)
  {
    InitialInv(rep, nonce, sessionId, binding);
    RunKeepsInv(rep, Initial(nonce), sessionId, binding, steps);
    var w := Run(rep, Initial(nonce), sessionId, binding, steps);
    var restart := [Execute(E.Crash(nonce')), Execute(E.RecoverOrphans), Execute(E.BindSession)];
    RunKeepsInv(rep, w, sessionId, binding, restart);
    RestartIsRestarted(rep, w, sessionId, binding, nonce');
    E.RestartReplays(w.exec, sessionId, binding, nonce', key);
    hide WellFormed, Run, E.Inv, N.Inv, E.Restarted, E.AllMean, WorksIffCurrent, E.UsableIffCurrent, Navigates;
    var w' := Run(rep, w, sessionId, binding, restart);
    forall t | t in w'.exec.issued[key] && w'.exec.issued[key][t].ObjectTarget?
      ensures WorksIffCurrent(rep, Reg(w'), sessionId, t, w'.exec.issued[key][t].identity)
    {
      UsableWorks(rep, w', sessionId, t, w'.exec.issued[key][t].identity);
    }
  }
}
