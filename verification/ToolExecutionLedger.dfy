/** A rendered ToolResult: its text and the session references that the text embeds. */
module ToolResults {
  datatype ToolText = ToolText(body: string, refs: set<string>)
}

/**
  The durable idempotency ledger of `ledger.py`: one row for each (session, tool call).
  A call passes through three separate transactions (begin, the tool itself, settle), and
  other callers, a crash or an orphan recovery may run between any two of them.
*/
module ToolExecutionLedger {
  import opened Wrappers
  import opened ToolResults

  datatype CallKey = CallKey(sessionId: string, toolCallId: string)

  datatype Status = Running | Completed | Interrupted

  // SHA-256 is read as a free, hence injective, function of what is hashed.
  datatype ArgsDigest = ArgsDigest(canonicalJson: string)
  datatype ResultDigest = NoResult | ResultDigest(text: ToolText)

  datatype Row = Row(toolName: string, fingerprint: ArgsDigest, status: Status,
                     resultHash: ResultDigest, resultCache: ToolText, executionCount: nat)

  type Rows = map<CallKey, Row>

  const NOTHING_CACHED := ToolText("", {})

  datatype Decision = Execute | Conflict | Existing(row: Row)

  /** How the wrapped tool call ends: a native string, some other value, or an exception. */
  datatype CallOutcome = Text(text: ToolText) | NotText | Raised

  datatype Reply = Result(text: ToolText) | Refusal(code: string) | Propagates

  // ---- the transactions on the table ----

  function BeginDecision(rows: Rows, key: CallKey, toolName: string, fingerprint: ArgsDigest): Decision {
    if key !in rows then Execute
    else if rows[key].toolName != toolName || rows[key].fingerprint != fingerprint then Conflict
    else Existing(rows[key])
  }

  function BeginRows(rows: Rows, key: CallKey, toolName: string, fingerprint: ArgsDigest): Rows {
    if key in rows then rows
    else rows[key := Row(toolName, fingerprint, Running, NoResult, NOTHING_CACHED, 1)]
  }

  function CompleteRows(rows: Rows, key: CallKey, text: ToolText): Rows {
    if key in rows && rows[key].status == Running
    then rows[key := rows[key].(status := Completed, resultHash := ResultDigest(text), resultCache := text)]
    else rows
  }

  function InterruptRows(rows: Rows, key: CallKey): Rows {
    if key in rows && rows[key].status == Running
    then rows[key := rows[key].(status := Interrupted)]
    else rows
  }

  function RecoverRows(rows: Rows): Rows {
    map key | key in rows ::
      if rows[key].status == Running then rows[key].(status := Interrupted) else rows[key]
  }

  /** What `execute` answers when the begin transaction does not hand out the call. */
  function ImmediateReply(decision: Decision): Reply
    requires !decision.Execute?
  {
    match decision
    case Conflict => Refusal("tool_call_id_conflict")
    case Existing(row) =>
      match row.status
      case Completed =>
        if row.resultHash != ResultDigest(row.resultCache) then Refusal("idempotency_cache_corrupt")
        else Result(row.resultCache)
      case Running => Refusal("tool_execution_in_progress")
      case Interrupted => Refusal("tool_execution_interrupted")
  }

  // ---- all callers, all processes ----

  /** A caller that was handed the call; `outcome` is set once the tool has ended. */
  datatype Caller = Caller(key: CallKey, toolName: string, fingerprint: ArgsDigest, outcome: Option<CallOutcome>)

  datatype Event =
    | Started(key: CallKey)
    | Replied(key: CallKey, toolName: string, fingerprint: ArgsDigest, reply: Reply)

  /** The table survives a crash; the callers do not. The trace records what was observed. */
  datatype World = World(rows: Rows, callers: map<nat, Caller>, trace: seq<Event>)

  const EMPTY_WORLD := World(map[], map[], [])

  datatype Step =
    | Enter(id: nat, key: CallKey, toolName: string, args: string)
    | CallEnds(id: nat, outcome: CallOutcome)
    | Settle(id: nat)
    | Crash
    | RecoverOrphans

  function NextEnter(w: World, id: nat, key: CallKey, toolName: string, args: string): World {
    var fingerprint := ArgsDigest(args);
    if key.sessionId == "" || key.toolCallId == "" then
      w.(trace := w.trace + [Replied(key, toolName, fingerprint, Refusal("missing_tool_call_identity"))])
    else
      var decision := BeginDecision(w.rows, key, toolName, fingerprint);
      if decision.Execute? then
        World(BeginRows(w.rows, key, toolName, fingerprint),
              w.callers[id := Caller(key, toolName, fingerprint, None)],
              w.trace + [Started(key)])
      else
        w.(trace := w.trace + [Replied(key, toolName, fingerprint, ImmediateReply(decision))])
  }

  /** The rows after a caller settles, and what it answers. */
  function SettleCall(rows: Rows, key: CallKey, outcome: CallOutcome): (Rows, Reply) {
    match outcome
    case Text(text) =>
      if key in rows && rows[key].status == Running
      then (CompleteRows(rows, key, text), Result(text))
      else (rows, Propagates)   // the running record was lost to an orphan recovery
    case NotText => (InterruptRows(rows, key), Refusal("invalid_tool_result"))
    case Raised => (InterruptRows(rows, key), Propagates)
  }

  function Next(w: World, step: Step): World {
    match step
    case Enter(id, key, toolName, args) =>
      if id in w.callers then w else NextEnter(w, id, key, toolName, args)
    case CallEnds(id, outcome) =>
      if id in w.callers && w.callers[id].outcome.None?
      then w.(callers := w.callers[id := w.callers[id].(outcome := Some(outcome))])
      else w
    case Settle(id) =>
      if id in w.callers && w.callers[id].outcome.Some? then
        var c := w.callers[id];
        var (rows, reply) := SettleCall(w.rows, c.key, c.outcome.value);
        World(rows, w.callers - {id}, w.trace + [Replied(c.key, c.toolName, c.fingerprint, reply)])
      else w
    case Crash => w.(callers := map[])
    case RecoverOrphans => w.(rows := RecoverRows(w.rows))
  }

  function Run(w: World, steps: seq<Step>): World
    decreases |steps|
  {
    if steps == [] then w else Run(Next(w, steps[0]), steps[1..])
  }

  function Starts(trace: seq<Event>, key: CallKey): nat {
    if trace == [] then 0
    else Starts(trace[..|trace| - 1], key) + if trace[|trace| - 1] == Started(key) then 1 else 0
  }

  lemma StartsSnoc(trace: seq<Event>, e: Event, key: CallKey)
    ensures Starts(trace + [e], key) == Starts(trace, key) + if e == Started(key) then 1 else 0
  {
    assert (trace + [e])[..|trace|] == trace;
  }

  // ---- the invariant ----

  ghost predicate SoundRow(row: Row) {
    && row.executionCount == 1
    && row.resultHash == (if row.status == Completed then ResultDigest(row.resultCache) else NoResult)
  }

  ghost predicate OwnsRunningRow(rows: Rows, c: Caller) {
    && c.key in rows
    && rows[c.key].toolName == c.toolName
    && rows[c.key].fingerprint == c.fingerprint
    && rows[c.key].status != Completed
  }

  ghost predicate Honest(rows: Rows, e: Event) {
    e.Replied? ==>
      && e.reply != Refusal("idempotency_cache_corrupt")
      && (e.reply.Result? ==>
            && e.key in rows
            && rows[e.key].toolName == e.toolName
            && rows[e.key].fingerprint == e.fingerprint
            && rows[e.key].status == Completed
            && rows[e.key].resultCache == e.reply.text)
  }

  ghost predicate RowsSound(rows: Rows) {
    forall k <- rows :: SoundRow(rows[k])
  }

  ghost predicate CallersOwn(rows: Rows, callers: map<nat, Caller>) {
    && (forall id <- callers :: OwnsRunningRow(rows, callers[id]))
    && (forall i, j | i in callers && j in callers && i != j :: callers[i].key != callers[j].key)
  }

  ghost predicate TraceFits(rows: Rows, trace: seq<Event>) {
    && (forall k :: Starts(trace, k) == if k in rows then 1 else 0)
    && (forall e <- trace :: Honest(rows, e))
  }

  ghost predicate Inv(w: World) {
    RowsSound(w.rows) && CallersOwn(w.rows, w.callers) && TraceFits(w.rows, w.trace)
  }

  /** What no later step may undo for a key that has a row. */
  ghost predicate Settled(before: Row, after: Row) {
    && after.toolName == before.toolName
    && after.fingerprint == before.fingerprint
    && (before.status != Running ==> after == before)
  }

  lemma NextSettled(w: World, step: Step, key: CallKey)
    requires key in w.rows
    ensures key in Next(w, step).rows && Settled(w.rows[key], Next(w, step).rows[key])
  {
  }

  /** A completed or interrupted row never changes again, and no row changes what it is bound to. */
  lemma {:induction false} RowsAreAbsorbing(w: World, steps: seq<Step>, key: CallKey)
    requires key in w.rows
    ensures key in Run(w, steps).rows && Settled(w.rows[key], Run(w, steps).rows[key])
    decreases |steps|
  {
    if steps != [] {
      NextSettled(w, steps[0], key);
      RowsAreAbsorbing(Next(w, steps[0]), steps[1..], key);
    }
  }

  lemma TraceStillFits(rows: Rows, trace: seq<Event>, rows': Rows)
    requires TraceFits(rows, trace)
    requires rows'.Keys == rows.Keys
    requires forall k <- rows :: Settled(rows[k], rows'[k])
    ensures TraceFits(rows', trace)
  {
  }

  lemma ReplyFits(rows: Rows, trace: seq<Event>, e: Event)
    requires TraceFits(rows, trace) && e.Replied? && Honest(rows, e)
    ensures TraceFits(rows, trace + [e])
  {
    forall k ensures Starts(trace + [e], k) == Starts(trace, k) {
      StartsSnoc(trace, e, k);
    }
  }

  lemma EnterKeepsInv(w: World, id: nat, key: CallKey, toolName: string, args: string)
    requires Inv(w) && id !in w.callers
    ensures Inv(NextEnter(w, id, key, toolName, args))
  {
    var w', fingerprint := NextEnter(w, id, key, toolName, args), ArgsDigest(args);
    if key.sessionId == "" || key.toolCallId == "" || key in w.rows {
      assert w'.rows == w.rows && w'.callers == w.callers;
      ReplyFits(w.rows, w.trace, w'.trace[|w.trace|]);
    } else {
      assert CallersOwn(w'.rows, w'.callers);
      forall k ensures Starts(w'.trace, k) == if k in w'.rows then 1 else 0 {
        StartsSnoc(w.trace, Started(key), k);
      }
    }
  }

  lemma SettleKeepsInv(w: World, id: nat)
    requires Inv(w)
    ensures Inv(Next(w, Settle(id)))
  {
    hide Starts;
    var w' := Next(w, Settle(id));
    if id in w.callers && w.callers[id].outcome.Some? {
      var c := w.callers[id];
      assert OwnsRunningRow(w.rows, c);
      assert forall j <- w'.callers :: w.callers[j].key != c.key;
      TraceStillFits(w.rows, w.trace, w'.rows);
      ReplyFits(w'.rows, w.trace, w'.trace[|w.trace|]);
    }
  }

  lemma NextKeepsInv(w: World, step: Step)
    requires Inv(w)
    ensures Inv(Next(w, step))
  {
    match step
    case Enter(id, key, toolName, args) =>
      if id !in w.callers {
        EnterKeepsInv(w, id, key, toolName, args);
      }
    case Settle(id) => SettleKeepsInv(w, id);
    case CallEnds(_, _) =>
    case Crash =>
    case RecoverOrphans => TraceStillFits(w.rows, w.trace, RecoverRows(w.rows));
  }

  lemma {:induction false} RunKeepsInv(w: World, steps: seq<Step>)
    requires Inv(w)
    ensures Inv(Run(w, steps))
    decreases |steps|
  {
    if steps != [] {
      NextKeepsInv(w, steps[0]);
      RunKeepsInv(Next(w, steps[0]), steps[1..]);
    }
  }

  /** Every transaction keeps what a row is bound to, and what it has become. */
  lemma TransactionsSettle(rows: Rows, key: CallKey, toolName: string, fingerprint: ArgsDigest, text: ToolText, k: CallKey)
    requires k in rows
    ensures k in BeginRows(rows, key, toolName, fingerprint) && BeginRows(rows, key, toolName, fingerprint)[k] == rows[k]
    ensures k in CompleteRows(rows, key, text) && Settled(rows[k], CompleteRows(rows, key, text)[k])
    ensures k in InterruptRows(rows, key) && Settled(rows[k], InterruptRows(rows, key)[k])
    ensures k in RecoverRows(rows) && Settled(rows[k], RecoverRows(rows)[k]) && RecoverRows(rows)[k].status != Running
    ensures k != key ==> CompleteRows(rows, key, text)[k] == rows[k] && InterruptRows(rows, key)[k] == rows[k]
  {
  }

  // ---- what the ledger promises ----

  /** No interleaving of callers, exceptions, crashes and recoveries starts a tool call twice. */
  lemma AtMostOnce(steps: seq<Step>, key: CallKey)
    ensures Starts(Run(EMPTY_WORLD, steps).trace, key) <= 1
  {
    RunKeepsInv(EMPTY_WORLD, steps);
  }

  /** Once anybody got a real result, every later matching call gets that same result and runs nothing. */
  lemma LaterCallsReplay(steps: seq<Step>, e: Event, more: seq<Step>, id: nat, args: string)
    requires e in Run(EMPTY_WORLD, steps).trace && e.Replied? && e.reply.Result?
    requires ArgsDigest(args) == e.fingerprint
    requires e.key.sessionId != "" && e.key.toolCallId != ""
    requires id !in Run(Run(EMPTY_WORLD, steps), more).callers
    ensures
      var w := Run(Run(EMPTY_WORLD, steps), more);
      Next(w, Enter(id, e.key, e.toolName, args)) == w.(trace := w.trace + [e])
  {
    var w := Run(EMPTY_WORLD, steps);
    RunKeepsInv(EMPTY_WORLD, steps);
    RunKeepsInv(w, more);
    assert Honest(w.rows, e);
    RowsAreAbsorbing(w, more, e.key);
    assert SoundRow(w.rows[e.key]);
  }

  /** Two callers that both received a real result for one tool call received the same one. */
  lemma ResultsAgree(steps: seq<Step>, e: Event, e': Event)
    requires e in Run(EMPTY_WORLD, steps).trace && e.Replied? && e.reply.Result?
    requires e' in Run(EMPTY_WORLD, steps).trace && e'.Replied? && e'.reply.Result?
    requires e.key == e'.key
    ensures e == e'
  {
    var w := Run(EMPTY_WORLD, steps);
    RunKeepsInv(EMPTY_WORLD, steps);
    assert Honest(w.rows, e) && Honest(w.rows, e');
  }

  /**
    A call that was running when its process died is fenced: after the restart it is never
    handed out again, whatever happens later, and a matching call is told so.
  */
  lemma OrphansStayFenced(steps: seq<Step>, key: CallKey, more: seq<Step>, id: nat, args: string)
    requires
      var rows := Run(EMPTY_WORLD, steps).rows;
      key in rows && rows[key].status == Running && rows[key].fingerprint == ArgsDigest(args)
    requires key.sessionId != "" && key.toolCallId != ""
    requires id !in Run(Run(EMPTY_WORLD, steps), [Crash, RecoverOrphans] + more).callers
    ensures
      var toolName := Run(EMPTY_WORLD, steps).rows[key].toolName;
      var w := Run(Run(EMPTY_WORLD, steps), [Crash, RecoverOrphans] + more);
      && Starts(w.trace, key) == 1
      && Next(w, Enter(id, key, toolName, args)) == w.(trace := w.trace +
           [Replied(key, toolName, ArgsDigest(args), Refusal("tool_execution_interrupted"))])
  {
    var w := Run(EMPTY_WORLD, steps);
    var tail := [Crash, RecoverOrphans] + more;
    RunKeepsInv(EMPTY_WORLD, steps);
    RunKeepsInv(w, tail);
    var fenced := Next(Next(w, Crash), RecoverOrphans);
    assert tail[1..][0] == RecoverOrphans && tail[1..][1..] == more;
    assert Run(w, tail) == Run(Next(w, Crash), tail[1..]) == Run(fenced, more);
    RowsAreAbsorbing(fenced, more, key);
  }

  // ---- what a call is answered ----

  /** What the row of a call and its caller get when the tool has ended like this while the row was still running. */
  ghost predicate AnswersOutcome(before: Row, outcome: CallOutcome, after: Row, reply: Reply) {
    && after.toolName == before.toolName && after.fingerprint == before.fingerprint
    && after.executionCount == before.executionCount
    && (forall text :: outcome == Text(text) ==>
          after.status == Completed && after.resultCache == text && after.resultHash == ResultDigest(text)
          && reply == Result(text))
    && (!outcome.Text? ==>
          after.status == Interrupted && after.resultCache == before.resultCache && after.resultHash == before.resultHash)
    && (outcome.NotText? ==> reply == Refusal("invalid_tool_result"))
    && (outcome.Raised? ==> reply == Propagates)
  }

  /** What a call is answered whose row is already there. */
  ghost predicate AnswersRow(row: Row, toolName: string, fingerprint: ArgsDigest, reply: Reply) {
    if !(row.toolName == toolName && row.fingerprint == fingerprint) then reply == Refusal("tool_call_id_conflict")
    else
      && (row.status == Running ==> reply == Refusal("tool_execution_in_progress"))
      && (row.status == Interrupted ==> reply == Refusal("tool_execution_interrupted"))
      && (row.status == Completed && row.resultHash == ResultDigest(row.resultCache) ==> reply == Result(row.resultCache))
      && (row.status == Completed && row.resultHash != ResultDigest(row.resultCache) ==>
            reply == Refusal("idempotency_cache_corrupt"))
  }

  /**
    In every reachable state a caller whose tool has ended gets the text that the tool returned, and
    its row keeps that text, exactly when the row still runs. A row that a recovery took away stays
    as it is, and the caller never sees a result.
  */
  lemma SettledAsTheToolEnded(steps: seq<Step>, id: nat)
    requires
      var w := Run(EMPTY_WORLD, steps);
      id in w.callers && w.callers[id].outcome.Some?
    ensures
      var w := Run(EMPTY_WORLD, steps);
      var w', c := Next(w, Settle(id)), w.callers[id];
      && c.key in w.rows && c.key in w'.rows && w.rows[c.key].status != Completed
      && w'.callers == w.callers - {id}
      && w'.rows.Keys == w.rows.Keys && (forall k <- w.rows :: k != c.key ==> w'.rows[k] == w.rows[k])
      && |w'.trace| == |w.trace| + 1 && w'.trace[..|w.trace|] == w.trace
      && var e := w'.trace[|w.trace|];
      && e.Replied? && e.key == c.key && e.toolName == c.toolName && e.fingerprint == c.fingerprint
      && (w.rows[c.key].status == Running ==> AnswersOutcome(w.rows[c.key], c.outcome.value, w'.rows[c.key], e.reply))
      && (w.rows[c.key].status == Interrupted ==> w'.rows == w.rows && !e.reply.Result?)
  {
    RunKeepsInv(EMPTY_WORLD, steps);
    var w := Run(EMPTY_WORLD, steps);
    assert OwnsRunningRow(w.rows, w.callers[id]);
  }

  /** Nothing that takes a running row from its caller, and nothing that the caller does itself. */
  predicate LeavesCaller(step: Step, id: nat) {
    match step
    case Enter(_, _, _, _) => true
    case CallEnds(i, _) => i != id
    case Settle(i) => i != id
    case Crash => false
    case RecoverOrphans => false
  }

  ghost predicate Executes(w: World, id: nat, c: Caller) {
    id in w.callers && w.callers[id] == c && c.key in w.rows && w.rows[c.key].status == Running
  }

  lemma {:induction false} StillExecutes(w: World, steps: seq<Step>, id: nat, c: Caller)
    requires Inv(w) && Executes(w, id, c) && forall s <- steps :: LeavesCaller(s, id)
    ensures Inv(Run(w, steps)) && Executes(Run(w, steps), id, c)
    decreases |steps|
  {
    if steps != [] {
      NextKeepsInv(w, steps[0]);
      assert forall j <- w.callers :: j != id ==> w.callers[j].key != c.key;
      assert LeavesCaller(steps[0], id);
      StillExecutes(Next(w, steps[0]), steps[1..], id, c);
    }
  }

  lemma {:induction false} RunConcat(w: World, a: seq<Step>, b: seq<Step>)
    ensures Run(w, a + b) == Run(Run(w, a), b)
    decreases |a|
  {
    if a == [] {
      assert a + b == b;
    } else {
      assert (a + b)[1..] == a[1..] + b;
      RunConcat(Next(w, a[0]), a[1..], b);
    }
  }

  /**
    A tool call that was never made before and whose tool returns a text is answered with that text,
    whatever other callers do meanwhile, as long as no crash or recovery comes in between. Every later
    matching call, over any crashes and recoveries, is answered with it, too.
  */
  lemma FirstCallIsAnswered(steps: seq<Step>, id: nat, key: CallKey, toolName: string, args: string, meanwhile: seq<Step>,
                            text: ToolText, until: seq<Step>, more: seq<Step>, id': nat)
    requires key.sessionId != "" && key.toolCallId != ""
    requires key !in Run(EMPTY_WORLD, steps).rows && id !in Run(EMPTY_WORLD, steps).callers
    requires forall s <- meanwhile + until :: LeavesCaller(s, id)
    ensures
      var called := steps + [Enter(id, key, toolName, args)] + meanwhile + [CallEnds(id, Text(text))] + until;
      var w, w' := Run(EMPTY_WORLD, called), Run(EMPTY_WORLD, called + [Settle(id)] + more);
      var answer := Replied(key, toolName, ArgsDigest(args), Result(text));
      && Next(w, Settle(id)).trace == w.trace + [answer]
      && (id' !in w'.callers ==> Next(w', Enter(id', key, toolName, args)) == w'.(trace := w'.trace + [answer]))
  {
    hide Next, Inv, Run;
    var called := steps + [Enter(id, key, toolName, args)] + meanwhile + [CallEnds(id, Text(text))] + until;
    var w := Run(EMPTY_WORLD, called);
    CallStillExecutes(steps, id, key, toolName, args, meanwhile, text, until);
    SettlesWithText(w, id, Caller(key, toolName, ArgsDigest(args), Some(Text(text))), text);
    RunSnoc(EMPTY_WORLD, called, Settle(id));
    RunConcat(EMPTY_WORLD, called + [Settle(id)], more);
    var answer := Replied(key, toolName, ArgsDigest(args), Result(text));
    assert answer in Run(EMPTY_WORLD, called + [Settle(id)]).trace;
    if id' !in Run(EMPTY_WORLD, called + [Settle(id)] + more).callers {
      LaterCallsReplay(called + [Settle(id)], answer, more, id', args);
    }
  }

  lemma SettlesWithText(w: World, id: nat, c: Caller, text: ToolText)
    requires Executes(w, id, c) && c.outcome == Some(Text(text))
    ensures Next(w, Settle(id)).trace == w.trace + [Replied(c.key, c.toolName, c.fingerprint, Result(text))]
  {
  }

  lemma EnterExecutes(w: World, id: nat, key: CallKey, toolName: string, args: string)
    requires key.sessionId != "" && key.toolCallId != "" && key !in w.rows && id !in w.callers
    ensures Executes(Next(w, Enter(id, key, toolName, args)), id, Caller(key, toolName, ArgsDigest(args), None))
  {
  }

  lemma CallStillExecutes(steps: seq<Step>, id: nat, key: CallKey, toolName: string, args: string, meanwhile: seq<Step>,
                          text: ToolText, until: seq<Step>)
    requires key.sessionId != "" && key.toolCallId != ""
    requires key !in Run(EMPTY_WORLD, steps).rows && id !in Run(EMPTY_WORLD, steps).callers
    requires forall s <- meanwhile + until :: LeavesCaller(s, id)
    ensures
      var called := steps + [Enter(id, key, toolName, args)] + meanwhile + [CallEnds(id, Text(text))] + until;
      Executes(Run(EMPTY_WORLD, called), id, Caller(key, toolName, ArgsDigest(args), Some(Text(text))))
  {
    hide Inv, Run, LeavesCaller, NextEnter;
    var c := Caller(key, toolName, ArgsDigest(args), None);
    var s1 := steps + [Enter(id, key, toolName, args)];
    EnterExecutes(Run(EMPTY_WORLD, steps), id, key, toolName, args);
    RunSnoc(EMPTY_WORLD, steps, Enter(id, key, toolName, args));
    EmptyInv();
    RunKeepsInv(EMPTY_WORLD, s1);
    assert forall s <- meanwhile :: s in meanwhile + until;
    assert forall s <- until :: s in meanwhile + until;
    StillExecutes(Run(EMPTY_WORLD, s1), meanwhile, id, c);
    RunConcat(EMPTY_WORLD, s1, meanwhile);
    var s2 := s1 + meanwhile + [CallEnds(id, Text(text))];
    RunSnoc(EMPTY_WORLD, s1 + meanwhile, CallEnds(id, Text(text)));
    RunKeepsInv(EMPTY_WORLD, s2);
    StillExecutes(Run(EMPTY_WORLD, s2), until, id, c.(outcome := Some(Text(text))));
    RunConcat(EMPTY_WORLD, s2, until);
  }

  lemma EmptyInv()
    ensures Inv(EMPTY_WORLD)
  {
  }

  lemma RunSnoc(w: World, steps: seq<Step>, step: Step)
    ensures Run(w, steps + [step]) == Next(Run(w, steps), step)
  {
    RunConcat(w, steps, [step]);
    assert [step][1..] == [];
  }

  /** The ledger object: every method is one transaction of the table, except `Execute`. */
  class Ledger {
    var rows: Rows

    constructor (stored: Rows)
      ensures rows == RecoverRows(stored)
    {
      rows := RecoverRows(stored);
    }

    method Begin(key: CallKey, toolName: string, fingerprint: ArgsDigest) returns (decision: Decision)
      modifies this
      ensures decision == BeginDecision(old(rows), key, toolName, fingerprint)
      ensures rows == BeginRows(old(rows), key, toolName, fingerprint)
    {
      if key !in rows {
        rows := rows[key := Row(toolName, fingerprint, Running, NoResult, NOTHING_CACHED, 1)];
        return Decision.Execute;
      }
      var row := rows[key];
      if row.toolName != toolName || row.fingerprint != fingerprint {
        return Conflict;
      }
      return Existing(row);
    }

    method Complete(key: CallKey, text: ToolText) returns (found: bool)
      modifies this
      ensures rows == CompleteRows(old(rows), key, text)
      ensures found <==> key in old(rows) && old(rows)[key].status == Running
    {
      found := key in rows && rows[key].status == Running;
      if found {
        rows := rows[key := rows[key].(status := Completed, resultHash := ResultDigest(text), resultCache := text)];
      }
    }

    method MarkInterrupted(key: CallKey)
      modifies this
      ensures rows == InterruptRows(old(rows), key)
    {
      if key in rows && rows[key].status == Running {
        rows := rows[key := rows[key].(status := Interrupted)];
      }
    }

    /** `execute` when nobody else runs between its transactions; `outcome` is what the tool does if called. */
    method Execute(key: CallKey, toolName: string, args: string, outcome: CallOutcome) returns (reply: Reply)
      modifies this
      ensures
        var w := Run(World(old(rows), map[], []),
                     [Enter(0, key, toolName, args), CallEnds(0, outcome), Settle(0)]);
        && rows == w.rows
        && w.trace != []
        && w.trace[|w.trace| - 1] == Replied(key, toolName, ArgsDigest(args), reply)
      ensures key.sessionId == "" || key.toolCallId == "" ==>
        reply == Refusal("missing_tool_call_identity") && rows == old(rows)
      ensures key.sessionId != "" && key.toolCallId != "" && key !in old(rows) ==>
        && rows.Keys == old(rows).Keys + {key} && rows - {key} == old(rows)
        && AnswersOutcome(Row(toolName, ArgsDigest(args), Running, NoResult, NOTHING_CACHED, 1), outcome, rows[key], reply)
      ensures key.sessionId != "" && key.toolCallId != "" && key in old(rows) ==>
        rows == old(rows) && AnswersRow(rows[key], toolName, ArgsDigest(args), reply)
    {
      ghost var w0 := World(rows, map[], []);
      ghost var w1 := Next(w0, Enter(0, key, toolName, args));
      ghost var w2 := Next(w1, CallEnds(0, outcome));
      UnfoldThree(w0, Enter(0, key, toolName, args), CallEnds(0, outcome), Settle(0));
      if key.sessionId == "" || key.toolCallId == "" {
        return Refusal("missing_tool_call_identity");
      }
      var decision := Begin(key, toolName, ArgsDigest(args));
      if !decision.Execute? {
        return ImmediateReply(decision);
      }
      match outcome
      case Text(text) =>
        var found := Complete(key, text);
        reply := if found then Result(text) else Propagates;
      case NotText =>
        MarkInterrupted(key);
        reply := Refusal("invalid_tool_result");
      case Raised =>
        MarkInterrupted(key);
        reply := Propagates;
    }
  }

  lemma UnfoldThree(w: World, a: Step, b: Step, c: Step)
    ensures Run(w, [a, b, c]) == Next(Next(Next(w, a), b), c)
  {
    assert [a, b, c][1..] == [b, c] && [b, c][1..] == [c] && [c][1..] == [];
    var w1 := Next(w, a);
    assert Run(w1, [b, c]) == Run(Next(w1, b), [c]);
  }
}
