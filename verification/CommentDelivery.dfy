/**
  Comment delivery over whole runs of one session: batches, completed and interrupted turns,
  acknowledgements, failed saves, crashes, rebinds with reload, reconciliation and resets.
*/
module CommentDelivery {
  import opened Wrappers
  import opened ReferenceState
  import opened SessionStore
  import opened CommentBatches
  import Arguments
  import R = ReportTaskRefs

  /** The deliveries in memory and in the reference store, and the turns whose answer is durable. */
  datatype World = World(store: Store, delivery: Delivery, savedDelivery: Delivery, completed: set<string>)

  /**
    A `write` is the state that a save puts on disk; it is missing when the save fails. Processes from
    before synthetic turns were refused take part too, so a disk can hold the pages that `Repair` drops.
  */
  datatype Step =
    | UseRegistry(step: R.Step)
    | ReadBatch(args: BatchArgs, turnId: string, write: Option<Dump>)
    | ReadBatchBefore(args: BatchArgs, turnId: string, write: Option<Dump>)
    | CompleteTurn(turnId: string)
    | Acknowledge(turnId: string, write: Option<Dump>)
    | Repair(write: Option<Dump>)
    | Checkpoint(write: Option<Dump>)
    | Crash(nonce: string)
    | BindSession
    | ResetGeneration(dump: Dump)

  function Reg(w: World): R.Registry {
    w.store.sys.reg
  }

  ghost function Written(w: World, svc: Service, write: Option<Dump>): World {
    if write.Some? && IsDump(Reg(w), svc.sessionId, write.value)
    then w.(store := SavedAs(w.store, write.value), savedDelivery := w.delivery) else w
  }

  function WithRegistry(w: World, reg: R.Registry): World {
    w.(store := w.store.(sys := w.store.sys.(reg := reg)))
  }

  predicate Restores(st: Store, sessionId: string, binding: R.Binding)
    requires sessionId != ""
  {
    st.saved.Some? && Load(R.Bind(st.sys.reg, sessionId, binding, false).value, sessionId, st.saved.value.dump).Ok?
  }

  ghost function Next(w: World, svc: Service, binding: R.Binding, step: Step): World
    requires svc.sessionId != ""
  {
    match step
    case UseRegistry(rstep) => w.(store := Used(w.store, rstep))
    case ReadBatch(args, turnId, write) =>
      var p := Prepare(svc, Reg(w), w.delivery, args, turnId);
      var w' := WithRegistry(w, p.reg).(delivery := p.delivery);
      if p.stored then Written(w', svc, write) else w'
    case ReadBatchBefore(args, turnId, write) =>
      var p := PrepareBefore(svc, Reg(w), w.delivery, args, turnId);
      var w' := WithRegistry(w, p.reg).(delivery := p.delivery);
      if p.stored then Written(w', svc, write) else w'
    case CompleteTurn(turnId) =>
      if IsSynthetic(turnId) then w else w.(completed := w.completed + {turnId})
    case Acknowledge(turnId, write) =>
      if turnId in w.completed && NeedsAcknowledgement(w.delivery, turnId)
      then Written(w.(delivery := Acknowledged(w.delivery, turnId)), svc, write) else w
    case Repair(write) =>
      if WithoutSynthetic(w.delivery) == w.delivery then w
      else Written(w.(delivery := WithoutSynthetic(w.delivery)), svc, write)
    case Checkpoint(write) => Written(w, svc, write)
    case Crash(nonce) => w.(store := Crashed(w.store, nonce), delivery := EMPTY)
    case BindSession =>
      w.(store := Bound(w.store, svc.sessionId, binding),
         delivery := if Restores(w.store, svc.sessionId, binding) then w.savedDelivery else EMPTY)
    case ResetGeneration(dump) =>
      var reset := Reset(w.store, svc.sessionId, binding);
      if svc.sessionId in Reg(w).scopes && IsDump(reset.Reg(), svc.sessionId, dump)
      then w.(store := SavedAs(reset, dump), delivery := EMPTY, savedDelivery := EMPTY) else w
  }

  ghost function Run(w: World, svc: Service, binding: R.Binding, steps: seq<Step>): World
    requires svc.sessionId != ""
    decreases |steps|
  {
    if steps == [] then w else Run(Next(w, svc, binding, steps[0]), svc, binding, steps[1..])
  }

  function Initial(nonce: string): World {
    World(Store(EmptySystem(nonce), None), EMPTY, EMPTY, {})
  }

  // ---- the invariant ----

  ghost predicate MemoryDelivers(w: World, svc: Service) {
    if svc.sessionId in Reg(w).scopes then DeliveryOk(svc, Reg(w), w.delivery, w.completed) else w.delivery == EMPTY
  }

  ghost predicate DiskDelivers(w: World, svc: Service) {
    w.store.saved.Some? ==> DeliveryOk(svc, w.store.saved.value.from, w.savedDelivery, w.completed)
  }

  ghost predicate RealTurns(w: World) {
    forall t <- w.completed :: !IsSynthetic(t)
  }

  ghost predicate Inv(w: World, svc: Service, binding: R.Binding) {
    StoreOk(w.store, svc.sessionId, binding) && MemoryDelivers(w, svc) && DiskDelivers(w, svc) && RealTurns(w)
  }

  lemma RegistryIsOk(w: World, svc: Service, binding: R.Binding)
    requires Inv(w, svc, binding)
    ensures RegistryOk(Reg(w))
  {
    var used := R.UsedTokens(Reg(w), w.store.sys.minted);
    assert Reg(w).commentCursors.Keys <= used;
  }

  /** A save puts exactly what memory delivers on disk. */
  lemma WrittenKeepsInv(w: World, svc: Service, binding: R.Binding, write: Option<Dump>)
    requires Inv(w, svc, binding)
    ensures Inv(Written(w, svc, write), svc, binding)
  {
    hide DeliveryOk, StoreOk;
    if write.Some? && IsDump(Reg(w), svc.sessionId, write.value) {
      SaveKeepsOk(w.store, svc.sessionId, binding, write.value);
    }
  }

  /** New deliveries over a registry that only grew. */
  lemma MemoryStepKeepsInv(w: World, svc: Service, binding: R.Binding, store: Store, d: Delivery)
    requires Inv(w, svc, binding) && StoreOk(store, svc.sessionId, binding) && store.saved == w.store.saved
    requires svc.sessionId in store.Reg().scopes && DeliveryOk(svc, store.Reg(), d, w.completed)
    ensures Inv(w.(store := store, delivery := d), svc, binding)
  {
  }

  lemma UsedKeepsSaved(st: Store, step: R.Step)
    ensures Used(st, step).saved == st.saved
  {
  }

  lemma UseKeepsInv(w: World, svc: Service, binding: R.Binding, step: R.Step)
    requires Inv(w, svc, binding)
    ensures Inv(w.(store := Used(w.store, step)), svc, binding)
  {
    hide DeliveryOk, StoreOk, Used;
    UseKeepsOk(w.store, svc.sessionId, binding, step);
    UsedKeepsSaved(w.store, step);
    if svc.sessionId in Reg(w).scopes {
      GrowthKeepsDeliveryOk(svc, Reg(w), Used(w.store, step).Reg(), w.delivery, w.completed);
    }
  }

  /** Fetching a page changes the registry as issuing one comment cursor does, or not at all. */
  lemma FetchIsRegistryStep(w: World, svc: Service, q: Query, limit: nat, offset: nat) returns (step: R.Step)
    requires PageAt(svc, Reg(w), q, limit, offset).0 != Reg(w)
    ensures w.store.(sys := w.store.sys.(reg := PageAt(svc, Reg(w), q, limit, offset).0)) == Used(w.store, step)
  {
    var next := offset + |PageAt(svc, Reg(w), q, limit, offset).1.comments|;
    step := R.IssueComments(svc.sessionId, q.postId, OrderOf(svc.report, q), next);
  }

  lemma PreparedKeepsInv(w: World, svc: Service, binding: R.Binding, c: Checked, turnId: string)
    requires Inv(w, svc, binding) && CheckedOk(svc, Reg(w), c)
    ensures
      var p := PrepareChecked(svc, Reg(w), w.delivery, c, turnId);
      Inv(WithRegistry(w, p.reg).(delivery := p.delivery), svc, binding)
  {
    hide DeliveryOk, StoreOk, PrepareChecked, PageAt, RegistryOk, Used;
    RegistryIsOk(w, svc, binding);
    PrepareKeepsDeliveryOk(svc, Reg(w), w.delivery, w.completed, c, turnId);
    var p := PrepareChecked(svc, Reg(w), w.delivery, c, turnId);
    var store := w.store.(sys := w.store.sys.(reg := p.reg));
    if p.reg != Reg(w) {
      var step := FetchIsRegistryStep(w, svc, c.query, c.limit, OffsetOf(w.delivery, c));
      UseKeepsOk(w.store, svc.sessionId, binding, step);
    }
    MemoryStepKeepsInv(w, svc, binding, store, p.delivery);
  }

  /** A read, and one from before synthetic turns were refused. */
  lemma ReadBatchKeepsInv(w: World, svc: Service, binding: R.Binding, args: BatchArgs, turnId: string)
    requires Inv(w, svc, binding)
    ensures
      var p := Prepare(svc, Reg(w), w.delivery, args, turnId);
      Inv(WithRegistry(w, p.reg).(delivery := p.delivery), svc, binding)
    ensures
      var p := PrepareBefore(svc, Reg(w), w.delivery, args, turnId);
      Inv(WithRegistry(w, p.reg).(delivery := p.delivery), svc, binding)
  {
    hide Inv, PrepareChecked, CheckRest, RegistryOk;
    RegistryIsOk(w, svc, binding);
    ValidOfOk(Reg(w));
    var limit := BatchLimit(args);
    if limit.Ok? && CheckRest(svc, Reg(w), args, limit.value).Ok? {
      CheckIsOk(svc, Reg(w), args, limit.value);
      PreparedKeepsInv(w, svc, binding, CheckRest(svc, Reg(w), args, limit.value).value, turnId);
    }
  }

  lemma ValidOfOk(reg: R.Registry)
    requires RegistryOk(reg)
    ensures R.Valid(reg)
  {
  }

  lemma CompleteKeepsInv(w: World, svc: Service, binding: R.Binding, turnId: string)
    requires Inv(w, svc, binding) && !IsSynthetic(turnId)
    ensures Inv(w.(completed := w.completed + {turnId}), svc, binding)
  {
    hide StoreOk, PagesOk, Gapless, ProgressBacked, InOrder;
  }

  lemma BindStepKeepsInv(w: World, svc: Service, binding: R.Binding)
    requires Inv(w, svc, binding) && svc.sessionId != ""
    ensures Inv(Next(w, svc, binding, BindSession), svc, binding)
  {
    hide DeliveryOk, StoreOk, Load;
    BindKeepsOk(w.store, svc.sessionId, binding);
    var store := Bound(w.store, svc.sessionId, binding);
    if Restores(w.store, svc.sessionId, binding) {
      RestoredIsSavedOrMore(w.store, svc.sessionId, binding);
      GrowthKeepsDeliveryOk(svc, w.store.saved.value.from, store.Reg(), w.savedDelivery, w.completed);
      MemoryStepKeepsInv(w, svc, binding, store, w.savedDelivery);
    } else {
      EmptyIsOk(svc, store.Reg(), w.completed);
      MemoryStepKeepsInv(w, svc, binding, store, EMPTY);
    }
  }

  lemma EmptyIsOk(svc: Service, reg: R.Registry, completed: set<string>)
    ensures DeliveryOk(svc, reg, EMPTY, completed)
  {
  }

  lemma RestoredIsSavedOrMore(st: Store, sessionId: string, binding: R.Binding)
    requires StoreOk(st, sessionId, binding) && sessionId != "" && st.saved.Some?
    ensures
      var reg := Bound(st, sessionId, binding).Reg();
      && sessionId in reg.scopes && sessionId in st.saved.value.from.scopes
      && R.Grows(st.saved.value.from, reg) && reg.scopes[sessionId] == st.saved.value.from.scopes[sessionId]
  {
    hide Bound;
    BindKeepsOk(st, sessionId, binding);
  }

  lemma ResetKeepsInv(w: World, svc: Service, binding: R.Binding, dump: Dump)
    requires Inv(w, svc, binding) && svc.sessionId != ""
    ensures Inv(Next(w, svc, binding, ResetGeneration(dump)), svc, binding)
  {
    hide StoreOk, Reset, PageOk;
    var reset := Reset(w.store, svc.sessionId, binding);
    if svc.sessionId in Reg(w).scopes && IsDump(reset.Reg(), svc.sessionId, dump) {
      ResetKeepsOk(w.store, svc.sessionId, binding, dump);
      EmptyIsOk(svc, reset.Reg(), w.completed);
    }
  }

  lemma CrashKeepsInv(w: World, svc: Service, binding: R.Binding, nonce: string)
    requires Inv(w, svc, binding)
    ensures Inv(w.(store := Crashed(w.store, nonce), delivery := EMPTY), svc, binding)
  {
    hide DeliveryOk;
  }

  lemma NextKeepsInv(w: World, svc: Service, binding: R.Binding, step: Step)
    requires Inv(w, svc, binding) && svc.sessionId != ""
    ensures Inv(Next(w, svc, binding, step), svc, binding)
  {
    hide DeliveryOk, StoreOk, Prepare, PrepareBefore, Written, Used, Bound, Reset;
    match step
    case UseRegistry(rstep) => UseKeepsInv(w, svc, binding, rstep);
    case ReadBatch(args, turnId, write) =>
      var p := Prepare(svc, Reg(w), w.delivery, args, turnId);
      ReadBatchKeepsInv(w, svc, binding, args, turnId);
      WrittenKeepsInv(WithRegistry(w, p.reg).(delivery := p.delivery), svc, binding, write);
    case ReadBatchBefore(args, turnId, write) =>
      var p := PrepareBefore(svc, Reg(w), w.delivery, args, turnId);
      ReadBatchKeepsInv(w, svc, binding, args, turnId);
      WrittenKeepsInv(WithRegistry(w, p.reg).(delivery := p.delivery), svc, binding, write);
    case CompleteTurn(turnId) =>
      if !IsSynthetic(turnId) {
        CompleteKeepsInv(w, svc, binding, turnId);
      }
    case Acknowledge(turnId, write) =>
      if turnId in w.completed && NeedsAcknowledgement(w.delivery, turnId) {
        assert svc.sessionId in Reg(w).scopes;
        AcknowledgeKeepsDeliveryOk(svc, Reg(w), w.delivery, w.completed, turnId);
        WrittenKeepsInv(w.(delivery := Acknowledged(w.delivery, turnId)), svc, binding, write);
      }
    case Repair(write) =>
      if WithoutSynthetic(w.delivery) != w.delivery {
        assert svc.sessionId in Reg(w).scopes;
        RepairKeepsDeliveryOk(svc, Reg(w), w.delivery, w.completed);
        WrittenKeepsInv(w.(delivery := WithoutSynthetic(w.delivery)), svc, binding, write);
      }
    case Checkpoint(write) => WrittenKeepsInv(w, svc, binding, write);
    case Crash(nonce) => CrashKeepsInv(w, svc, binding, nonce);
    case BindSession => BindStepKeepsInv(w, svc, binding);
    case ResetGeneration(dump) => ResetKeepsInv(w, svc, binding, dump);
  }

  lemma {:induction false} RunKeepsInv(w: World, svc: Service, binding: R.Binding, steps: seq<Step>)
    requires Inv(w, svc, binding) && svc.sessionId != ""
    ensures Inv(Run(w, svc, binding, steps), svc, binding)
    decreases |steps|
  {
    hide Inv, Next;
    if steps != [] {
      NextKeepsInv(w, svc, binding, steps[0]);
      RunKeepsInv(Next(w, svc, binding, steps[0]), svc, binding, steps[1..]);
    }
  }

  lemma ReachableInv(svc: Service, binding: R.Binding, nonce: string, steps: seq<Step>)
    requires svc.sessionId != ""
    ensures Inv(Run(Initial(nonce), svc, binding, steps), svc, binding)
  {
    RunKeepsInv(Initial(nonce), svc, binding, steps);
  }

  // ---- what a restart brings back ----

  /** What the next process has: the deliveries that were saved last. */
  ghost predicate BroughtBack(w: World, w': World) {
    && w'.delivery == (if w.store.saved.Some? then w.savedDelivery else EMPTY)
    && w'.savedDelivery == w.savedDelivery && w'.completed == w.completed
    && (w.store.saved.Some? ==> Reg(w') == w.store.saved.value.from)
  }

  lemma RestartBringsBack(w: World, svc: Service, binding: R.Binding, nonce: string)
    requires Inv(w, svc, binding) && svc.sessionId != ""
    ensures BroughtBack(w, Next(Next(w, svc, binding, Crash(nonce)), svc, binding, BindSession))
  {
    hide DeliveryOk, StoreOk, Load;
    var crashed := Next(w, svc, binding, Crash(nonce));
    CrashKeepsInv(w, svc, binding, nonce);
    BindKeepsOk(crashed.store, svc.sessionId, binding);
    CrashForgets(w.store, nonce, svc.sessionId);
    if w.store.saved.Some? {
      FreshRestores(crashed.store, svc.sessionId, binding);
    }
  }

  lemma CrashForgets(st: Store, nonce: string, sessionId: string)
    ensures sessionId !in Crashed(st, nonce).sys.reg.scopes && Crashed(st, nonce).saved == st.saved
  {
  }

  lemma FreshRestores(st: Store, sessionId: string, binding: R.Binding)
    requires StoreOk(st, sessionId, binding) && sessionId != "" && sessionId !in st.sys.reg.scopes && st.saved.Some?
    ensures Restores(st, sessionId, binding)
  {
    var saved, nonce := st.saved.value, st.sys.reg.nonce;
    RestoreIsIdentity(saved.from, sessionId, saved.dump, nonce);
    assert R.Bind(st.sys.reg, sessionId, binding, false).value == FreshlyBound(nonce, sessionId, binding) by {
      assert R.EmptyRegistry(nonce).scopes[sessionId := R.Scope(sessionId, binding, 1)]
          == map[sessionId := R.Scope(sessionId, binding, 1)];
    }
  }

  /** The write of a step that saves. */
  function WriteOf(step: Step): Option<Dump> {
    match step
    case ReadBatch(_, _, write) => write
    case Acknowledge(_, write) => write
    case Repair(write) => write
    case Checkpoint(write) => write
    case _ => None
  }

  /**
    After any run: when a step that changes the deliveries, or a checkpoint, could save what it left, a
    crash right after it loses nothing. The next process has the same deliveries and the same references.
  */
  lemma SavedIsNotLost(svc: Service, binding: R.Binding, nonce: string, steps: seq<Step>, step: Step, nonce': string)
    requires svc.sessionId != ""
    requires
      var w := Run(Initial(nonce), svc, binding, steps);
      var w1 := Next(w, svc, binding, step);
      && WriteOf(step).Some? && IsDump(Reg(w1), svc.sessionId, WriteOf(step).value)
      && (step.Checkpoint? || w1.delivery != w.delivery)
    ensures
      var w1 := Next(Run(Initial(nonce), svc, binding, steps), svc, binding, step);
      var w2 := Next(Next(w1, svc, binding, Crash(nonce')), svc, binding, BindSession);
      w2.delivery == w1.delivery && Reg(w2) == Reg(w1) && w2.completed == w1.completed
  {
    hide Run, Inv, IsDump, Prepare, BroughtBack;
    var w := Run(Initial(nonce), svc, binding, steps);
    ReachableInv(svc, binding, nonce, steps);
    NextKeepsInv(w, svc, binding, step);
    var w1 := Next(w, svc, binding, step);
    RestartBringsBack(w1, svc, binding, nonce');
    StepSaves(w, svc, binding, step);
    BackIs(w1, Next(Next(w1, svc, binding, Crash(nonce')), svc, binding, BindSession));
  }

  lemma BackIs(w: World, w': World)
    requires BroughtBack(w, w') && w.store.saved.Some? && w.savedDelivery == w.delivery && w.store.saved.value.from == Reg(w)
    ensures w'.delivery == w.delivery && Reg(w') == Reg(w) && w'.completed == w.completed
  {
  }

  lemma StepSaves(w: World, svc: Service, binding: R.Binding, step: Step)
    requires svc.sessionId != "" && WriteOf(step).Some?
    requires IsDump(Reg(Next(w, svc, binding, step)), svc.sessionId, WriteOf(step).value)
    requires step.Checkpoint? || Next(w, svc, binding, step).delivery != w.delivery
    ensures
      var w1 := Next(w, svc, binding, step);
      w1.store.saved == Some(Saved(WriteOf(step).value, Reg(w1))) && w1.savedDelivery == w1.delivery
  {
    hide IsDump, PrepareChecked, CheckBatch;
    if step.ReadBatch? {
      UnstoredChangesNothing(svc, Reg(w), w.delivery, step.args, step.turnId);
    }
  }

  lemma UnstoredChangesNothing(svc: Service, reg: R.Registry, d: Delivery, args: BatchArgs, turnId: string)
    ensures !Prepare(svc, reg, d, args, turnId).stored ==> Prepare(svc, reg, d, args, turnId).delivery == d
  {
    hide CheckBatch, CommentPage;
  }

  // ---- no gap, whatever happened ----

  /** Position `i` of the query was shown by a completed turn and can be read back as the frozen comment it is. */
  ghost predicate Readable(svc: Service, reg: R.Registry, d: Delivery, completed: set<string>, q: Query, i: nat) {
    && 1 <= i <= |Matching(svc.report, q)|
    && exists t ::
         && t in d.pages && d.pages[t].query == q && t in completed
         && ReadPosition(svc, reg, d, BatchRef(svc.sessionId, t), i) == Ok(Matching(svc.report, q)[i - 1])
  }

  ghost predicate DeliveredUpTo(svc: Service, reg: R.Registry, d: Delivery, completed: set<string>, q: Query, end: nat) {
    forall i | 1 <= i <= end :: Readable(svc, reg, d, completed, q, i)
  }

  lemma OkDelivers(svc: Service, reg: R.Registry, d: Delivery, completed: set<string>, q: Query)
    requires R.Valid(reg) && DeliveryOk(svc, reg, d, completed) && q in d.progress
    ensures DeliveredUpTo(svc, reg, d, completed, q, d.progress[q].end)
  {
    hide DeliveryOk, R.Valid, ReadPosition;
    ProgressIsShown(svc, reg, d, completed, q);
    forall i | 1 <= i <= d.progress[q].end ensures Readable(svc, reg, d, completed, q, i) {
      assert Shown(d, q, i);
      ShownIsReadable(svc, reg, d, completed, q, i);
    }
  }

  /**
    After any run, in memory and on disk: every position up to a query's progress was shown by a
    completed turn, under that number, as the frozen comment it is.
  */
  lemma ProgressMeansDelivered(svc: Service, binding: R.Binding, nonce: string, steps: seq<Step>, q: Query)
    requires svc.sessionId != ""
    ensures
      var w := Run(Initial(nonce), svc, binding, steps);
      && (q in w.delivery.progress ==>
            DeliveredUpTo(svc, Reg(w), w.delivery, w.completed, q, w.delivery.progress[q].end))
      && (w.store.saved.Some? && q in w.savedDelivery.progress ==>
            DeliveredUpTo(svc, w.store.saved.value.from, w.savedDelivery, w.completed, q, w.savedDelivery.progress[q].end))
  {
    hide Run, DeliveredUpTo, DeliveryOk;
    ReachableInv(svc, binding, nonce, steps);
    var w := Run(Initial(nonce), svc, binding, steps);
    if q in w.delivery.progress {
      OkDelivers(svc, Reg(w), w.delivery, w.completed, q);
    }
    if w.store.saved.Some? && q in w.savedDelivery.progress {
      OkDelivers(svc, w.store.saved.value.from, w.savedDelivery, w.completed, q);
    }
  }

  /**
    After any run, a new turn that may ask is answered with the next stretch: `continue` right after
    the progress of its query, `start` from the first comment; a cursor is never refused.
  */
  lemma NextBatchIsServed(svc: Service, binding: R.Binding, nonce: string, steps: seq<Step>, args: BatchArgs, turnId: string)
    requires svc.sessionId != ""
    requires
      var w := Run(Initial(nonce), svc, binding, steps);
      var checked := CheckBatch(svc, Reg(w), args, turnId);
      && checked.Ok? && turnId !in w.delivery.pages
      && (checked.value.continues ==> checked.value.query in w.delivery.progress)
    ensures
      var w := Run(Initial(nonce), svc, binding, steps);
      var c, p := CheckBatch(svc, Reg(w), args, turnId).value, Prepare(svc, Reg(w), w.delivery, args, turnId);
      && p.stored && turnId in p.delivery.pages
      && p.outcome == Ok(ReceiptOf(svc.sessionId, turnId, p.delivery.pages[turnId]))
      && Prepares(svc, w.delivery, c, p.delivery.pages[turnId])
  {
    hide Run, DeliveryOk, StoreOk, RegistryOk, PrepareChecked, CheckRest, Prepares;
    var w := Run(Initial(nonce), svc, binding, steps);
    ReachableInv(svc, binding, nonce, steps);
    RegistryIsOk(w, svc, binding);
    ValidOfOk(Reg(w));
    CheckIsOk(svc, Reg(w), args, BatchLimit(args).value);
    PrepareStores(svc, Reg(w), w.delivery, w.completed, CheckBatch(svc, Reg(w), args, turnId).value, turnId);
  }

  // ---- the object ----

  /** What `acknowledge` leaves of a row of turns, one after the other. */
  function AcknowledgedAll(d: Delivery, turns: seq<string>): Delivery
    decreases |turns|
  {
    if turns == [] then d else Acknowledged(AcknowledgedAll(d, turns[..|turns| - 1]), turns[|turns| - 1])
  }

  class CommentSession {
    const svc: Service
    const registry: R.ReferenceRegistry
    var pages: map<string, Page>
    var progress: map<Query, Progress>
    var disk: Option<(Dump, Delivery)>

    constructor (svc: Service, registry: R.ReferenceRegistry)
      ensures this.svc == svc && this.registry == registry && Contents() == EMPTY && disk == None
    {
      this.svc, this.registry := svc, registry;
      pages, progress, disk := map[], map[], None;
    }

    function Contents(): Delivery
      reads this
    {
      Delivery(pages, progress)
    }

    /** The row on disk is this very state. */
    ghost predicate IsOnDisk()
      reads this, registry
    {
      disk.Some? && IsDump(registry.View(), svc.sessionId, disk.value.0) && disk.value.1 == Contents()
    }

    /** `save`: replaces the row atomically, or fails and leaves it. */
    method Save() returns (ok: bool)
      requires Keyed(registry.View()) && svc.sessionId in registry.scopes
      modifies this`disk
      ensures if ok then IsOnDisk() else disk == old(disk)
    {
      ok := *;
      if ok {
        var dump := DumpState(registry, svc.sessionId);
        disk := Some((dump, Contents()));
      }
    }

    method NextSequence() returns (sequence: nat)
      ensures sequence == 1 + MaxSequence(pages)
    {
      var todo, m := pages.Keys, 0;
      while todo != {}
        invariant todo <= pages.Keys
        invariant forall t <- pages :: t in todo || pages[t].sequence <= m
        invariant m == 0 || exists t <- pages :: pages[t].sequence == m
        decreases |todo|
      {
        var t :| t in todo;
        if m < pages[t].sequence {
          m := pages[t].sequence;
        }
        todo := todo - {t};
      }
      assert IsMaxSequence(pages, MaxSequence(pages));
      sequence := 1 + m;
    }

    /** `_comment_page` from its offset on. */
    method FetchPage(q: Query, limit: nat, offset: nat) returns (data: PageData)
      requires Keyed(registry.View()) && svc.sessionId in registry.scopes
      modifies registry
      ensures (registry.View(), data) == PageAt(svc, old(registry.View()), q, limit, offset)
      ensures Keyed(registry.View()) && registry.scopes == old(registry.scopes)
    {
      var all := Matching(svc.report, q);
      var selected := if offset <= |all| then all[offset..Arguments.Min(offset + limit, |all|)] else [];
      var next := offset + |selected|;
      if next < |all| {
        var token := registry.IssueComments(registry.scopes[svc.sessionId], q.postId, OrderOf(svc.report, q), next);
        return PageData(selected, |all|, Some(token));
      }
      return PageData(selected, |all|, None);
    }

    /** `read_batch`: a failed save leaves the page in memory and raises. */
    method ReadBatch(args: BatchArgs, turnId: string) returns (outcome: Result<Receipt>)
      requires Keyed(registry.View())
      modifies this, registry
      ensures
        var p := Prepare(svc, old(registry.View()), old(Contents()), args, turnId);
        && registry.View() == p.reg && Contents() == p.delivery
        && (p.stored ==> (outcome == p.outcome && IsOnDisk()) || (outcome == Err("save_failed") && disk == old(disk)))
        && (!p.stored ==> outcome == p.outcome && disk == old(disk))
    {
      hide CheckBatch, ResolvePost, IsDump, ReceiptOf, R.ResolveCommentCursor, Matching, R.IssueCommentCursor, PageAt, Keyed;
      var checked := CheckBatch(svc, registry.View(), args, turnId);
      if checked.Err? {
        return Err(checked.code);
      }
      var c := checked.value;
      CheckedResolves(svc, registry.View(), args, turnId);
      if turnId in pages {
        if pages[turnId].query != c.query {
          return Err("comment_batch_turn_limit");
        }
        return Ok(ReceiptOf(svc.sessionId, turnId, pages[turnId]));
      }
      if c.continues && c.query !in progress {
        return Err("comment_batch_not_started");
      }
      var sequence := NextSequence();
      var offset := 0;
      var page: Page;
      if c.continues && !progress[c.query].hasMore {
        page := PageOf(c, sequence, progress[c.query].end, PageData([], progress[c.query].matched, None));
      } else {
        if c.continues {
          offset := progress[c.query].end;
        }
        var from := 0;
        if c.continues && progress[c.query].cursor.Some? {
          var cursor := R.ResolveCommentCursor(registry.View(), svc.sessionId, progress[c.query].cursor.value,
                                               c.query.postId, OrderOf(svc.report, c.query));
          if cursor.Err? {
            return Err(cursor.code);
          }
          from := cursor.value.nextOffset;
        }
        var data := FetchPage(c.query, c.limit, from);
        page := PageOf(c, sequence, offset, data);
      }
      pages := pages[turnId := page];
      var ok := Save();
      outcome := if ok then Ok(ReceiptOf(svc.sessionId, turnId, page)) else Err("save_failed");
    }

    method AcknowledgeTurn(turnId: string) returns (ok: bool)
      requires Keyed(registry.View()) && svc.sessionId in registry.scopes
      modifies this
      ensures Contents() == Acknowledged(old(Contents()), turnId)
      ensures if NeedsAcknowledgement(old(Contents()), turnId) && ok then IsOnDisk() else disk == old(disk)
      ensures !NeedsAcknowledgement(old(Contents()), turnId) ==> ok
    {
      if turnId !in pages || pages[turnId].acknowledged {
        return true;
      }
      var p := pages[turnId];
      progress := progress[p.query := Progress(p.end, p.cursor, p.hasMore, p.matched)];
      pages := pages[turnId := p.(acknowledged := true)];
      ok := Save();
    }

    /**
      `reconcile`: drops the synthetic pages and acknowledges the pages of completed turns, in some
      order; the first failed save ends it, and what it did before stays.
    */
    method Reconcile(completed: set<string>) returns (ok: bool, ghost order: seq<string>)
      requires Keyed(registry.View()) && svc.sessionId in registry.scopes
      modifies this
      ensures Contents() == AcknowledgedAll(WithoutSynthetic(old(Contents())), order)
      ensures forall t <- order :: t in completed && !IsSynthetic(t)
      ensures ok ==> forall t <- pages :: !IsSynthetic(t) && (pages[t].acknowledged || t !in completed)
      ensures forall t <- old(pages) :: !IsSynthetic(t) ==> t in pages
    {
      hide IsDump, IsSynthetic;
      order := [];
      var repaired := map t | t in pages && !IsSynthetic(t) :: pages[t];
      if repaired != pages {
        pages := repaired;
        var saved := Save();
        if !saved {
          return false, order;
        }
      }
      var todo := pages.Keys;
      while todo != {}
        invariant Contents() == AcknowledgedAll(WithoutSynthetic(old(Contents())), order)
        invariant pages.Keys == (set t | t in old(pages) && !IsSynthetic(t)) && todo <= pages.Keys
        invariant forall t <- order :: t in completed && !IsSynthetic(t)
        invariant forall t <- pages :: t in todo || pages[t].acknowledged || t !in completed
        decreases |todo|
      {
        var turnId :| turnId in todo;
        todo := todo - {turnId};
        if !pages[turnId].acknowledged && turnId in completed {
          order := order + [turnId];
          var saved := AcknowledgeTurn(turnId);
          if !saved {
            return false, order;
          }
        }
      }
      return true, order;
    }
  }
}
