/**
  `execute_tool_call` with its checkpoint: the tool runs, the session's references are saved, and
  only then does the ledger store the result. One session of one report, over any interleaving of
  callers, registry activity, failed saves, crashes, rebinds and generation resets.
*/
module CheckpointedExecution {
  import opened Wrappers
  import opened ToolResults
  import opened ReferenceState
  import opened SessionStore
  import R = ReportTaskRefs
  import L = ToolExecutionLedger

  /** What a reference or cursor stands for. */
  datatype Target =
    | ObjectTarget(identity: R.TokenIdentity)
    | SearchTarget(search: R.Cursor)
    | CommentTarget(comments: R.CommentCursor)

  predicate Means(reg: R.Registry, token: string, target: Target) {
    match target
    case ObjectTarget(identity) => token in reg.records && R.IdentityOf(reg.records[token]) == identity
    case SearchTarget(search) => token in reg.searchCursors && reg.searchCursors[token] == search
    case CommentTarget(comments) => token in reg.commentCursors && reg.commentCursors[token] == comments
  }

  type Targets = map<string, Target>

  predicate AllMean(reg: R.Registry, targets: Targets) {
    forall t <- targets :: Means(reg, t, targets[t])
  }

  datatype World = World(
    ledger: L.World,
    store: Store,
    unsaved: map<nat, L.CallOutcome>,     // tool returned, checkpoint not yet written
    issued: map<L.CallKey, Targets>)      // what the references of a result stood for when it was returned

  datatype Step =
    | Enter(id: nat, toolCallId: string, toolName: string, args: string)
    | UseRegistry(step: R.Step)
    | ToolReturns(id: nat, outcome: L.CallOutcome, targets: Targets)
    | ToolRaises(id: nat)
    | Checkpoint(id: nat, dump: Dump, written: bool)
    | Settle(id: nat)
    | Crash(nonce: string)
    | RecoverOrphans
    | BindSession
    | ResetGeneration(dump: Dump)

  /**
    A returned text mentions only published references. They may already be of an older generation: the
    session can be reset between the commit of the tool and its return.
  */
  ghost predicate Returnable(reg: R.Registry, sessionId: string, outcome: L.CallOutcome, targets: Targets) {
    outcome.Text? ==>
      && sessionId in reg.scopes
      && targets.Keys == outcome.text.refs
      && AllMean(reg, targets)
  }

  ghost function Next(w: World, sessionId: string, binding: R.Binding, step: Step): World
    requires sessionId != ""
  {
    match step
    case Enter(id, toolCallId, toolName, args) =>
      w.(ledger := L.Next(w.ledger, L.Enter(id, L.CallKey(sessionId, toolCallId), toolName, args)))
    case UseRegistry(rstep) =>
      w.(store := Used(w.store, rstep))
    case ToolReturns(id, outcome, targets) =>
      if id in w.ledger.callers && w.ledger.callers[id].outcome.None? && id !in w.unsaved && !outcome.Raised?
         && Returnable(w.store.Reg(), sessionId, outcome, targets)
      then w.(unsaved := w.unsaved[id := outcome], issued := w.issued[w.ledger.callers[id].key := targets])
      else w
    case ToolRaises(id) =>
      if id in w.unsaved then w else w.(ledger := L.Next(w.ledger, L.CallEnds(id, L.Raised)))
    case Checkpoint(id, dump, written) =>
      if id !in w.unsaved then w
      else if written && IsDump(w.store.Reg(), sessionId, dump)
      then w.(store := SavedAs(w.store, dump), unsaved := w.unsaved - {id},
              ledger := L.Next(w.ledger, L.CallEnds(id, w.unsaved[id])))
      else w.(unsaved := w.unsaved - {id}, ledger := L.Next(w.ledger, L.CallEnds(id, L.Raised)))
    case Settle(id) => w.(ledger := L.Next(w.ledger, L.Settle(id)))
    case Crash(nonce) =>
      w.(ledger := L.Next(w.ledger, L.Crash), store := Crashed(w.store, nonce), unsaved := map[])
    case RecoverOrphans => w.(ledger := L.Next(w.ledger, L.RecoverOrphans))
    case BindSession => w.(store := Bound(w.store, sessionId, binding))
    case ResetGeneration(dump) =>
      if sessionId in w.store.Reg().scopes && IsDump(Reset(w.store, sessionId, binding).Reg(), sessionId, dump)
      then w.(store := SavedAs(Reset(w.store, sessionId, binding), dump)) else w
  }

  ghost function Run(w: World, sessionId: string, binding: R.Binding, steps: seq<Step>): World
    requires sessionId != ""
    decreases |steps|
  {
    if steps == [] then w else Run(Next(w, sessionId, binding, steps[0]), sessionId, binding, steps[1..])
  }

  function Initial(nonce: string): World {
    World(L.EMPTY_WORLD, Store(EmptySystem(nonce), None), map[], map[])
  }

  // ---- the invariant ----

  /** Every reference of this text is in the saved state and stands for what it stood for when it was issued. */
  ghost predicate Durable(saved: Option<Saved>, issued: map<L.CallKey, Targets>, key: L.CallKey, text: ToolText) {
    && key in issued && issued[key].Keys == text.refs
    && (text.refs != {} ==> saved.Some?)
    && (saved.Some? ==> AllMean(saved.value.from, issued[key]))
  }

  ghost predicate RowsDurable(w: World) {
    forall k <- w.ledger.rows :: w.ledger.rows[k].status.Completed? ==>
      Durable(w.store.saved, w.issued, k, w.ledger.rows[k].resultCache)
  }

  ghost predicate CallersDurable(w: World) {
    forall id <- w.ledger.callers :: w.ledger.callers[id].outcome.Some? && w.ledger.callers[id].outcome.value.Text? ==>
      Durable(w.store.saved, w.issued, w.ledger.callers[id].key, w.ledger.callers[id].outcome.value.text)
  }

  ghost predicate UnsavedOk(w: World, sessionId: string) {
    forall id <- w.unsaved ::
      && id in w.ledger.callers && w.ledger.callers[id].outcome.None?
      && (w.unsaved[id].Text? ==>
            && sessionId in w.store.Reg().scopes
            && w.ledger.callers[id].key in w.issued
            && w.issued[w.ledger.callers[id].key].Keys == w.unsaved[id].text.refs
            && AllMean(w.store.Reg(), w.issued[w.ledger.callers[id].key]))
  }

  ghost predicate Inv(w: World, sessionId: string, binding: R.Binding) {
    && L.Inv(w.ledger)
    && StoreOk(w.store, sessionId, binding)
    && RowsDurable(w) && CallersDurable(w) && UnsavedOk(w, sessionId)
  }

  // ---- how the invariant survives each step ----

  lemma GrowthKeepsMeaning(a: R.Registry, b: R.Registry, targets: Targets)
    requires R.Grows(a, b) && AllMean(a, targets)
    ensures AllMean(b, targets)
  {
    forall t | t in targets ensures Means(b, t, targets[t]) {
      assert Means(a, t, targets[t]);
    }
  }

  /** A memory that only grew, under the same saved state, keeps the invariant. */
  lemma MemoryStepKeepsInv(w: World, sessionId: string, binding: R.Binding, store: Store)
    requires Inv(w, sessionId, binding) && StoreOk(store, sessionId, binding) && store.saved == w.store.saved
    requires sessionId in w.store.Reg().scopes ==> R.Grows(w.store.Reg(), store.Reg()) && sessionId in store.Reg().scopes
    ensures Inv(w.(store := store), sessionId, binding)
  {
    forall id | id in w.unsaved && w.unsaved[id].Text?
      ensures AllMean(store.Reg(), w.issued[w.ledger.callers[id].key]) && sessionId in store.Reg().scopes
    {
      GrowthKeepsMeaning(w.store.Reg(), store.Reg(), w.issued[w.ledger.callers[id].key]);
    }
  }

  lemma SavingKeepsDurable(w: World, saved: Saved, key: L.CallKey, text: ToolText)
    requires Durable(w.store.saved, w.issued, key, text)
    requires w.store.saved.Some? ==> R.Grows(w.store.saved.value.from, saved.from)
    ensures Durable(Some(saved), w.issued, key, text)
  {
    if w.store.saved.Some? {
      GrowthKeepsMeaning(w.store.saved.value.from, saved.from, w.issued[key]);
    }
  }

  /** Saving a memory that includes what was saved before keeps every durable reference. */
  lemma SaveKeepsInv(w: World, sessionId: string, binding: R.Binding, store: Store)
    requires Inv(w, sessionId, binding) && StoreOk(store, sessionId, binding) && store.saved.Some?
    requires R.Grows(w.store.Reg(), store.Reg()) && store.saved.value.from == store.Reg()
    requires sessionId in w.store.Reg().scopes && sessionId in store.Reg().scopes
    ensures Inv(w.(store := store), sessionId, binding)
  {
    if w.store.saved.Some? {
      R.GrowsTransitive(w.store.saved.value.from, w.store.Reg(), store.Reg());
    }
    forall k, text | Durable(w.store.saved, w.issued, k, text) ensures Durable(store.saved, w.issued, k, text) {
      SavingKeepsDurable(w, store.saved.value, k, text);
    }
    forall id | id in w.unsaved && w.unsaved[id].Text?
      ensures AllMean(store.Reg(), w.issued[w.ledger.callers[id].key])
    {
      GrowthKeepsMeaning(w.store.Reg(), store.Reg(), w.issued[w.ledger.callers[id].key]);
    }
  }

  lemma QuietStepEffect(ledger: L.World, step: L.Step)
    requires step.Enter? || step.RecoverOrphans? || (step.CallEnds? && step.outcome.Raised?)
    ensures
      var ledger' := L.Next(ledger, step);
      && (forall k <- ledger'.rows :: ledger'.rows[k].status.Completed? ==> k in ledger.rows && ledger.rows[k] == ledger'.rows[k])
      && (forall id <- ledger'.callers :: ledger'.callers[id].outcome.Some? && ledger'.callers[id].outcome.value.Text? ==>
            id in ledger.callers && ledger.callers[id] == ledger'.callers[id])
      && (forall id <- ledger.callers :: id in ledger'.callers &&
            ((step.CallEnds? && step.id == id) || ledger'.callers[id] == ledger.callers[id]))
  {
  }

  /** A ledger step that ends no call with a text and settles nothing completes no row. */
  lemma QuietLedgerStep(w: World, sessionId: string, binding: R.Binding, step: L.Step)
    requires Inv(w, sessionId, binding)
    requires step.Enter? || step.RecoverOrphans? || (step.CallEnds? && step.id !in w.unsaved && step.outcome.Raised?)
    ensures Inv(w.(ledger := L.Next(w.ledger, step)), sessionId, binding)
  {
    L.NextKeepsInv(w.ledger, step);
    QuietStepEffect(w.ledger, step);
    var w' := w.(ledger := L.Next(w.ledger, step));
    assert RowsDurable(w') && CallersDurable(w') && UnsavedOk(w', sessionId);
  }

  lemma SettleKeepsInv(w: World, sessionId: string, binding: R.Binding, id: nat)
    requires Inv(w, sessionId, binding)
    ensures Inv(w.(ledger := L.Next(w.ledger, L.Settle(id))), sessionId, binding)
  {
    L.NextKeepsInv(w.ledger, L.Settle(id));
    var ledger := L.Next(w.ledger, L.Settle(id));
    forall k | k in ledger.rows && ledger.rows[k].status.Completed?
      ensures Durable(w.store.saved, w.issued, k, ledger.rows[k].resultCache)
    {
      if !(k in w.ledger.rows && ledger.rows[k] == w.ledger.rows[k]) {
        var c := w.ledger.callers[id];
        assert c.key == k && c.outcome.value == L.Text(ledger.rows[k].resultCache);
      }
    }
  }

  lemma CheckpointKeepsInv(w: World, sessionId: string, binding: R.Binding, id: nat)
    requires Inv(w, sessionId, binding) && id in w.unsaved
    requires w.unsaved[id].Text? ==>
      w.store.saved.Some? && w.store.saved.value.from == w.store.Reg()
    ensures Inv(w.(unsaved := w.unsaved - {id}, ledger := L.Next(w.ledger, L.CallEnds(id, w.unsaved[id]))), sessionId, binding)
  {
    L.NextKeepsInv(w.ledger, L.CallEnds(id, w.unsaved[id]));
    var w' := w.(unsaved := w.unsaved - {id}, ledger := L.Next(w.ledger, L.CallEnds(id, w.unsaved[id])));
    assert w'.ledger.rows == w.ledger.rows;
    assert CallersDurable(w') by {
      var c := w.ledger.callers[id];
      if w.unsaved[id].Text? {
        assert Durable(w.store.saved, w.issued, c.key, w.unsaved[id].text);
      }
    }
  }

  lemma ToolReturnsKeepsInv(w: World, sessionId: string, binding: R.Binding, id: nat, outcome: L.CallOutcome, targets: Targets)
    requires Inv(w, sessionId, binding)
    requires id in w.ledger.callers && w.ledger.callers[id].outcome.None? && id !in w.unsaved
    requires Returnable(w.store.Reg(), sessionId, outcome, targets)
    ensures Inv(w.(unsaved := w.unsaved[id := outcome], issued := w.issued[w.ledger.callers[id].key := targets]), sessionId, binding)
  {
    var key := w.ledger.callers[id].key;
    var issued := w.issued[key := targets];
    var w' := w.(unsaved := w.unsaved[id := outcome], issued := issued);
    assert L.OwnsRunningRow(w.ledger.rows, w.ledger.callers[id]);
    forall k, text | k != key && Durable(w.store.saved, w.issued, k, text) ensures Durable(w.store.saved, issued, k, text) {}
    assert RowsDurable(w');
    assert forall j <- w.ledger.callers :: j != id ==> w.ledger.callers[j].key != key;
    assert CallersDurable(w') && UnsavedOk(w', sessionId);
  }

  lemma CrashKeepsInv(w: World, sessionId: string, binding: R.Binding, nonce: string)
    requires Inv(w, sessionId, binding)
    ensures Inv(w.(ledger := L.Next(w.ledger, L.Crash), store := Crashed(w.store, nonce), unsaved := map[]), sessionId, binding)
  {
    L.NextKeepsInv(w.ledger, L.Crash);
  }

  lemma CheckpointStepKeepsInv(w: World, sessionId: string, binding: R.Binding, id: nat, dump: Dump, written: bool)
    requires Inv(w, sessionId, binding) && sessionId != "" && id in w.unsaved
    ensures Inv(Next(w, sessionId, binding, Checkpoint(id, dump, written)), sessionId, binding)
  {
    if written && IsDump(w.store.Reg(), sessionId, dump) {
      SaveKeepsOk(w.store, sessionId, binding, dump);
      SaveKeepsInv(w, sessionId, binding, SavedAs(w.store, dump));
      CheckpointKeepsInv(w.(store := SavedAs(w.store, dump)), sessionId, binding, id);
    } else {
      QuietLedgerStep(w.(unsaved := w.unsaved - {id}), sessionId, binding, L.CallEnds(id, L.Raised));
    }
  }

  lemma NextKeepsInv(w: World, sessionId: string, binding: R.Binding, step: Step)
    requires Inv(w, sessionId, binding) && sessionId != ""
    ensures Inv(Next(w, sessionId, binding, step), sessionId, binding)
  {
    match step
    case Enter(id, toolCallId, toolName, args) =>
      QuietLedgerStep(w, sessionId, binding, L.Enter(id, L.CallKey(sessionId, toolCallId), toolName, args));
    case UseRegistry(rstep) =>
      UseKeepsOk(w.store, sessionId, binding, rstep);
      MemoryStepKeepsInv(w, sessionId, binding, Used(w.store, rstep));
    case ToolReturns(id, outcome, targets) =>
      if id in w.ledger.callers && w.ledger.callers[id].outcome.None? && id !in w.unsaved
         && Returnable(w.store.Reg(), sessionId, outcome, targets) {
        ToolReturnsKeepsInv(w, sessionId, binding, id, outcome, targets);
      }
    case ToolRaises(id) =>
      if id !in w.unsaved {
        QuietLedgerStep(w, sessionId, binding, L.CallEnds(id, L.Raised));
      }
    case Checkpoint(id, dump, written) =>
      if id in w.unsaved {
        CheckpointStepKeepsInv(w, sessionId, binding, id, dump, written);
      }
    case Settle(id) => SettleKeepsInv(w, sessionId, binding, id);
    case Crash(nonce) => CrashKeepsInv(w, sessionId, binding, nonce);
    case RecoverOrphans => QuietLedgerStep(w, sessionId, binding, L.RecoverOrphans);
    case BindSession =>
      BindKeepsOk(w.store, sessionId, binding);
      MemoryStepKeepsInv(w, sessionId, binding, Bound(w.store, sessionId, binding));
    case ResetGeneration(dump) =>
      if sessionId in w.store.Reg().scopes && IsDump(Reset(w.store, sessionId, binding).Reg(), sessionId, dump) {
        ResetKeepsOk(w.store, sessionId, binding, dump);
        SaveKeepsInv(w, sessionId, binding, SavedAs(Reset(w.store, sessionId, binding), dump));
      }
  }

  lemma {:induction false} RunKeepsInv(w: World, sessionId: string, binding: R.Binding, steps: seq<Step>)
    requires Inv(w, sessionId, binding) && sessionId != ""
    ensures Inv(Run(w, sessionId, binding, steps), sessionId, binding)
    decreases |steps|
  {
    if steps != [] {
      NextKeepsInv(w, sessionId, binding, steps[0]);
      RunKeepsInv(Next(w, sessionId, binding, steps[0]), sessionId, binding, steps[1..]);
    }
  }

  // ---- crash consistency ----

  /** In every reachable state a completed row mentions only references that are already saved. */
  lemma CompletedMeansSaved(sessionId: string, binding: R.Binding, nonce: string, steps: seq<Step>, key: L.CallKey)
    requires sessionId != ""
    requires
      var rows := Run(Initial(nonce), sessionId, binding, steps).ledger.rows;
      key in rows && rows[key].status.Completed? && rows[key].resultCache.refs != {}
    ensures
      var w := Run(Initial(nonce), sessionId, binding, steps);
      && w.store.saved.Some?
      && IsDump(w.store.saved.value.from, sessionId, w.store.saved.value.dump)
      && key in w.issued && w.issued[key].Keys == w.ledger.rows[key].resultCache.refs
      && AllMean(w.store.saved.value.from, w.issued[key])
  {
    RunKeepsInv(Initial(nonce), sessionId, binding, steps);
  }

  /**
    In every reachable state a call whose tool has returned and whose row still runs ends as its
    checkpoint does: when the references are saved, the call is answered with what the tool returned and
    its row keeps it; when saving fails, the row is interrupted, the call raises, and nothing is saved.
  */
  lemma CheckpointDecides(sessionId: string, binding: R.Binding, nonce: string, steps: seq<Step>, id: nat, dump: Dump, written: bool)
    requires sessionId != ""
    requires
      var w := Run(Initial(nonce), sessionId, binding, steps);
      && id in w.unsaved && id in w.ledger.callers && w.ledger.callers[id].key in w.ledger.rows
      && w.ledger.rows[w.ledger.callers[id].key].status == L.Running
    ensures
      var w := Run(Initial(nonce), sessionId, binding, steps);
      var w', c := Run(w, sessionId, binding, [Checkpoint(id, dump, written), Settle(id)]), w.ledger.callers[id];
      var saves := written && IsDump(w.store.Reg(), sessionId, dump);
      && c.key in w.ledger.rows && c.key in w'.ledger.rows && id !in w'.ledger.callers
      && (exists reply :: w'.ledger.trace == w.ledger.trace + [L.Replied(c.key, c.toolName, c.fingerprint, reply)]
            && L.AnswersOutcome(w.ledger.rows[c.key], if saves then w.unsaved[id] else L.Raised, w'.ledger.rows[c.key], reply))
      && w'.store.saved == (if saves then Some(Saved(dump, w.store.Reg())) else w.store.saved)
  {
    hide Run, Next;
    var w := Run(Initial(nonce), sessionId, binding, steps);
    RunKeepsInv(Initial(nonce), sessionId, binding, steps);
    CheckpointThenSettle(w, sessionId, binding, id, dump, written);
    UnfoldTwo(w, sessionId, binding, Checkpoint(id, dump, written), Settle(id));
  }

  lemma CheckpointThenSettle(w: World, sessionId: string, binding: R.Binding, id: nat, dump: Dump, written: bool)
    requires sessionId != "" && id in w.unsaved && id in w.ledger.callers && w.ledger.callers[id].outcome.None?
    requires w.ledger.callers[id].key in w.ledger.rows && w.ledger.rows[w.ledger.callers[id].key].status == L.Running
    ensures
      var w', c := Next(Next(w, sessionId, binding, Checkpoint(id, dump, written)), sessionId, binding, Settle(id)),
                   w.ledger.callers[id];
      var outcome := if written && IsDump(w.store.Reg(), sessionId, dump) then w.unsaved[id] else L.Raised;
      && c.key in w'.ledger.rows && id !in w'.ledger.callers
      && (exists reply :: w'.ledger.trace == w.ledger.trace + [L.Replied(c.key, c.toolName, c.fingerprint, reply)]
            && L.AnswersOutcome(w.ledger.rows[c.key], outcome, w'.ledger.rows[c.key], reply))
      && w'.store.saved == (if written && IsDump(w.store.Reg(), sessionId, dump) then Some(Saved(dump, w.store.Reg()))
                            else w.store.saved)
  {
    hide IsDump;
    var saves := written && IsDump(w.store.Reg(), sessionId, dump);
    var outcome, c := if saves then w.unsaved[id] else L.Raised, w.ledger.callers[id];
    var ended := Next(w, sessionId, binding, Checkpoint(id, dump, written));
    assert ended.ledger == L.Next(w.ledger, L.CallEnds(id, outcome));
    SettleAnswers(ended.ledger, id);
  }

  lemma SettleAnswers(ledger: L.World, id: nat)
    requires id in ledger.callers && ledger.callers[id].outcome.Some?
    requires ledger.callers[id].key in ledger.rows && ledger.rows[ledger.callers[id].key].status == L.Running
    ensures
      var ledger', c := L.Next(ledger, L.Settle(id)), ledger.callers[id];
      && c.key in ledger'.rows && id !in ledger'.callers
      && exists reply :: ledger'.trace == ledger.trace + [L.Replied(c.key, c.toolName, c.fingerprint, reply)]
           && L.AnswersOutcome(ledger.rows[c.key], c.outcome.value, ledger'.rows[c.key], reply)
  {
    var ledger', c := L.Next(ledger, L.Settle(id)), ledger.callers[id];
    var reply := ledger'.trace[|ledger.trace|].reply;
    assert ledger'.trace == ledger.trace + [L.Replied(c.key, c.toolName, c.fingerprint, reply)];
    assert L.AnswersOutcome(ledger.rows[c.key], c.outcome.value, ledger'.rows[c.key], reply);
  }

  lemma UnfoldTwo(w: World, sessionId: string, binding: R.Binding, a: Step, b: Step)
    requires sessionId != ""
    ensures Run(w, sessionId, binding, [a, b]) == Next(Next(w, sessionId, binding, a), sessionId, binding, b)
  {
    assert [a, b][1..] == [b] && [b][1..] == [];
    var w1 := Next(w, sessionId, binding, a);
    assert Run(w1, sessionId, binding, [b]) == Run(Next(w1, sessionId, binding, b), sessionId, binding, []);
  }

  predicate UsableIffCurrent(reg: R.Registry, sessionId: string, token: string, identity: R.TokenIdentity)
    requires sessionId in reg.scopes
  {
    var answer := R.Resolve(reg, sessionId, token, Some(identity.kind));
    if identity.scope == reg.scopes[sessionId]
    then answer.Ok? && R.IdentityOf(answer.value) == identity
    else answer.Err?
  }

  lemma ResolvesIffCurrent(reg: R.Registry, sessionId: string, targets: Targets)
    requires R.Valid(reg) && AllMean(reg, targets) && sessionId in reg.scopes
    ensures forall t <- targets | targets[t].ObjectTarget? :: UsableIffCurrent(reg, sessionId, t, targets[t].identity)
  {
    forall t | t in targets && targets[t].ObjectTarget? ensures UsableIffCurrent(reg, sessionId, t, targets[t].identity) {
      assert Means(reg, t, targets[t]);
      R.ResolvedIsCurrent(reg, sessionId, t, Some(targets[t].identity.kind));
    }
  }

  /** What a process that starts after a crash makes of the ledger and of the saved references. */
  function Restarted(w: World, sessionId: string, binding: R.Binding, nonce: string): World
    requires sessionId != ""
  {
    w.(ledger := L.Next(L.Next(w.ledger, L.Crash), L.RecoverOrphans),
       store := Bound(Crashed(w.store, nonce), sessionId, binding),
       unsaved := map[])
  }

  lemma RestartKeepsInv(w: World, sessionId: string, binding: R.Binding, nonce: string)
    requires Inv(w, sessionId, binding) && sessionId != ""
    ensures
      var w' := Restarted(w, sessionId, binding, nonce);
      && Inv(w', sessionId, binding)
      && sessionId in w'.store.Reg().scopes
      && (w.store.saved.Some? ==> w'.store.Reg() == w.store.saved.value.from)
  {
    CrashKeepsInv(w, sessionId, binding, nonce);
    var w1 := w.(ledger := L.Next(w.ledger, L.Crash), store := Crashed(w.store, nonce), unsaved := map[]);
    QuietLedgerStep(w1, sessionId, binding, L.RecoverOrphans);
    var w2 := w1.(ledger := L.Next(w1.ledger, L.RecoverOrphans));
    BindKeepsOk(w2.store, sessionId, binding);
    MemoryStepKeepsInv(w2, sessionId, binding, Bound(w2.store, sessionId, binding));
  }

  ghost predicate Replays(w: World, w': World, sessionId: string, key: L.CallKey)
    requires key in w.ledger.rows
  {
    && key in w'.ledger.rows && w'.ledger.rows[key] == w.ledger.rows[key]
    && key in w'.issued && w'.issued[key].Keys == w.ledger.rows[key].resultCache.refs
    && AllMean(w'.store.Reg(), w'.issued[key])
    && sessionId in w'.store.Reg().scopes
    && forall t <- w'.issued[key] | w'.issued[key][t].ObjectTarget? ::
         UsableIffCurrent(w'.store.Reg(), sessionId, t, w'.issued[key][t].identity)
  }

  lemma RestartReplays(w: World, sessionId: string, binding: R.Binding, nonce: string, key: L.CallKey)
    requires Inv(w, sessionId, binding) && sessionId != ""
    requires key in w.ledger.rows && w.ledger.rows[key].status.Completed?
    ensures Replays(w, Restarted(w, sessionId, binding, nonce), sessionId, key)
  {
    RestartKeepsInv(w, sessionId, binding, nonce);
    var w' := Restarted(w, sessionId, binding, nonce);
    assert Durable(w.store.saved, w.issued, key, w.ledger.rows[key].resultCache);
    assert w'.issued[key].Keys != {} ==> w.store.saved.Some?;
    assert AllMean(w'.store.Reg(), w'.issued[key]);
    ResolvesIffCurrent(w'.store.Reg(), sessionId, w'.issued[key]);
  }

  /**
    Crash at any point of any run, recover, bind and restore: the completed result is kept word for
    word, its references stand for what they stood for when it was returned, and the session can
    resolve each of them exactly when no newer generation was saved meanwhile.
  */
  lemma ReplayedReferencesWork(sessionId: string, binding: R.Binding, nonce: string, steps: seq<Step>,
                               key: L.CallKey, nonce': string)
    requires sessionId != ""
    requires
      var rows := Run(Initial(nonce), sessionId, binding, steps).ledger.rows;
      key in rows && rows[key].status.Completed?
    ensures
      var w := Run(Initial(nonce), sessionId, binding, steps);
      Replays(w, Run(w, sessionId, binding, [Crash(nonce'), RecoverOrphans, BindSession]), sessionId, key)
  {
    var w := Run(Initial(nonce), sessionId, binding, steps);
    RunKeepsInv(Initial(nonce), sessionId, binding, steps);
    RestartIsThreeSteps(w, sessionId, binding, nonce');
    RestartReplays(w, sessionId, binding, nonce', key);
  }

  lemma RestartIsThreeSteps(w: World, sessionId: string, binding: R.Binding, nonce: string)
    requires sessionId != ""
    ensures Run(w, sessionId, binding, [Crash(nonce), RecoverOrphans, BindSession]) == Restarted(w, sessionId, binding, nonce)
  {
    UnfoldThree(w, sessionId, binding, Crash(nonce), RecoverOrphans, BindSession);
  }

  lemma UnfoldThree(w: World, sessionId: string, binding: R.Binding, a: Step, b: Step, c: Step)
    requires sessionId != ""
    ensures Run(w, sessionId, binding, [a, b, c]) ==
            Next(Next(Next(w, sessionId, binding, a), sessionId, binding, b), sessionId, binding, c)
  {
    assert [a, b, c][1..] == [b, c] && [b, c][1..] == [c] && [c][1..] == [];
    var w1 := Next(w, sessionId, binding, a);
    assert Run(w1, sessionId, binding, [b, c]) == Run(Next(w1, sessionId, binding, b), sessionId, binding, [c]);
  }
}
