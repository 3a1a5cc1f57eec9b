/**
  Risk-post discovery and its budget per turn (`_search_posts`): at most twenty candidates and three
  continuations between two binds, and a continuation that is announced is served.
*/
module SearchBudget {
  import opened Wrappers
  import opened Arguments
  import opened Tokens
  import R = ReportTaskRefs

  const MAX_CANDIDATES := 20
  const MAX_CONTINUATIONS := 3
  const MAX_PAGE := 10
  const MAX_QUERY := 200
  const MAX_CURSOR := 128

  datatype RiskPost = RiskPost(id: string, riskLevel: string, decision: string)

  /** The report a service searches, its mode, and how it normalises a goal. */
  datatype Service = Service(realReport: bool, riskPosts: seq<RiskPost>, normalize: string -> string)

  datatype SearchArgs = SearchArgs(queryText: string, riskLevel: Option<string>, decision: Option<string>,
                                   limit: Option<int>, requestedCount: Option<int>,
                                   contextRef: Option<string>, cursor: Option<string>)

  datatype Usage = Usage(calls: nat, continuations: nat, candidates: nat)

  datatype UsageKey = UsageKey(sessionId: string, generation: nat, turnId: string)

  datatype World = World(sys: R.System, usage: map<UsageKey, Usage>)

  datatype StopReason = NoMoreCandidates | CandidateLimit | ContinuationLimit

  datatype Found = Found(posts: seq<RiskPost>, offset: nat, cursor: Option<string>, canContinue: bool,
                         stop: Option<StopReason>)

  // ---- the checks before the lock ----

  datatype Goal = Goal(queryText: string, riskLevel: Option<string>, decision: Option<string>,
                       requestedCount: Option<nat>, pageLimit: nat)

  function OptionalOf(value: Option<string>, allowed: set<string>): Result<Option<string>> {
    if value.None? then Ok(None)
    else if RequireString(value.value).Err? || RequireString(value.value).value !in allowed then Err("invalid_arguments")
    else Ok(Some(RequireString(value.value).value))
  }

  /** How many are asked for: `requested_count` or the legacy `limit` over a real report, else `limit`. */
  function CountOf(svc: Service, args: SearchArgs): Result<(Option<nat>, nat)> {
    if svc.realReport then
      if args.requestedCount.Some? == args.limit.Some? then Err("invalid_arguments")
      else
        var n := if args.requestedCount.Some? then RequireInt(args.requestedCount.value, 1, 20)
                 else RequireInt(args.limit.value, 1, MAX_PAGE);
        if n.Err? then Err(n.code) else Ok((Some(n.value), MAX_CANDIDATES))
    else if args.limit.None? || args.requestedCount.Some? then Err("invalid_arguments")
    else
      var n := RequireInt(args.limit.value, 1, MAX_PAGE);
      if n.Err? then Err(n.code) else Ok((None, n.value))
  }

  function CheckGoal(svc: Service, args: SearchArgs, turnId: string): Result<Goal> {
    var query := RequireString(args.queryText);
    var count := CountOf(svc, args);
    var risk := OptionalOf(args.riskLevel, {"low", "medium", "high"});
    var decision := OptionalOf(args.decision, {"review", "reject"});
    if turnId == "" then Err("missing_turn_identity")
    else if query.Err? then Err(query.code)
    else if |query.value| > MAX_QUERY then Err("invalid_arguments")
    else if count.Err? then Err(count.code)
    else if risk.Err? then Err(risk.code)
    else if decision.Err? then Err(decision.code)
    else Ok(Goal(query.value, risk.value, decision.value, count.value.0, count.value.1))
  }

  function ContextOf(svc: Service, reg: R.Registry, sessionId: string, contextRef: Option<string>): Result<Option<(R.Kind, string)>> {
    if contextRef.None? then Ok(None)
    else
      var named := RequireString(contextRef.value);
      if named.Err? then Err(named.code)
      else
        var record := R.Resolve(reg, sessionId, named.value, None);
        if record.Err? then Err(record.code)
        else if record.value.kind != R.Post && record.value.kind != (if svc.realReport then R.Finding else R.Category)
        then Err("wrong_ref_type")
        else Ok(Some((record.value.kind, record.value.objectId)))
  }

  function CursorOf(cursor: Option<string>): Result<Option<string>> {
    if cursor.None? then Ok(None)
    else
      var named := RequireString(cursor.value);
      if named.Err? then Err(named.code)
      else if |named.value| > MAX_CURSOR then Err("invalid_arguments")
      else Ok(Some(named.value))
  }

  // ---- candidates and signatures ----

  function Candidates(posts: seq<RiskPost>, goal: Goal): seq<RiskPost> {
    if posts == [] then []
    else
      (if (goal.riskLevel.None? || posts[0].riskLevel == goal.riskLevel.value)
          && (goal.decision.None? || posts[0].decision == goal.decision.value) then [posts[0]] else [])
        + Candidates(posts[1..], goal)
  }

  function Signature(svc: Service, goal: Goal, context: Option<(R.Kind, string)>): R.Digest {
    R.OfGoal(svc.normalize(goal.queryText), goal.riskLevel, goal.decision, context, goal.requestedCount)
  }

  function OrderOf(posts: seq<RiskPost>): R.Digest {
    R.OfIds(seq(|posts|, i requires 0 <= i < |posts| => posts[i].id))
  }

  // ---- the search ----

  function UsageOf(w: World, key: UsageKey): Usage {
    if key in w.usage then w.usage[key] else Usage(0, 0, 0)
  }

  /** The part of `_search_posts` under the lock and after it, from a checked goal and a valid offset. */
  function Spend(svc: Service, w: World, scope: R.Scope, turnId: string, goal: Goal, context: Option<(R.Kind, string)>,
                 continues: bool, offset: nat): (World, Result<Found>)
  {
    var key := UsageKey(scope.sessionId, scope.generation, turnId);
    var usage := UsageOf(w, key);
    var all := Candidates(svc.riskPosts, goal);
    var touched := w.(usage := w.usage[key := usage]);
    if offset > |all| then (w, Err("cursor_order_mismatch"))
    else if continues && usage.continuations >= MAX_CONTINUATIONS then (touched, Err("search_turn_limit_reached"))
    else if usage.candidates >= MAX_CANDIDATES then (touched, Err("search_turn_limit_reached"))
    else
      var size := Min(goal.pageLimit, MAX_CANDIDATES - usage.candidates);
      var posts := all[offset..Min(offset + size, |all|)];
      var spent := Usage(usage.calls + 1, usage.continuations + (if continues then 1 else 0), usage.candidates + |posts|);
      var next := offset + |posts|;
      var hasMore := next < |all|;
      var (reg, cursor) := if hasMore
        then (var issued := R.IssueSearchCursor(w.sys.reg, scope, Signature(svc, goal, context), OrderOf(all), next);
              (issued.0, Some(issued.1)))
        else (w.sys.reg, None);
      var canContinue := hasMore && spent.continuations < MAX_CONTINUATIONS && spent.candidates < MAX_CANDIDATES;
      var stop := if !hasMore then Some(NoMoreCandidates)
                  else if spent.candidates >= MAX_CANDIDATES then Some(CandidateLimit)
                  else if spent.continuations >= MAX_CONTINUATIONS then Some(ContinuationLimit)
                  else None;
      (World(w.sys.(reg := reg), w.usage[key := spent]), Ok(Found(posts, offset, cursor, canContinue, stop)))
  }

  /** `_search_posts`, without the references of its result. */
  function Search(svc: Service, w: World, sessionId: string, turnId: string, args: SearchArgs): (World, Result<Found>) {
    var goal := CheckGoal(svc, args, turnId);
    var context := ContextOf(svc, w.sys.reg, sessionId, args.contextRef);
    var cursor := CursorOf(args.cursor);
    if sessionId !in w.sys.reg.scopes then (w, Err("investigation_scope_unbound"))
    else if goal.Err? then (w, Err(goal.code))
    else if context.Err? then (w, Err(context.code))
    else if cursor.Err? then (w, Err(cursor.code))
    else
      var scope := w.sys.reg.scopes[sessionId];
      if cursor.value.None? then Spend(svc, w, scope, turnId, goal.value, context.value, false, 0)
      else
        var order := OrderOf(Candidates(svc.riskPosts, goal.value));
        var resolved := R.ResolveSearchCursor(w.sys.reg, sessionId, cursor.value.value, Signature(svc, goal.value, context.value), order);
        if resolved.Err? then (w, Err(resolved.code))
        else Spend(svc, w, scope, turnId, goal.value, context.value, true, resolved.value.nextOffset)
  }

  // ---- runs ----

  datatype Step =
    | UseRegistry(step: R.Step)
    | BindSession(sessionId: string, binding: R.Binding, forceNewGeneration: bool)
    | SearchPosts(sessionId: string, turnId: string, args: SearchArgs)

  function Next(svc: Service, w: World, step: Step): World {
    match step
    case UseRegistry(rstep) => if rstep.BindSession? then w else w.(sys := R.Next(w.sys, rstep))
    case BindSession(sessionId, binding, force) =>
      var bound := R.Bind(w.sys.reg, sessionId, binding, force);
      if bound.Err? then w
      else World(w.sys.(reg := bound.value), map k | k in w.usage && k.sessionId != sessionId :: w.usage[k])
    case SearchPosts(sessionId, turnId, args) => Search(svc, w, sessionId, turnId, args).0
  }

  function Run(svc: Service, w: World, steps: seq<Step>): World
    decreases |steps|
  {
    if steps == [] then w else Run(svc, Next(svc, w, steps[0]), steps[1..])
  }

  /** The candidates and the served continuations that one turn gets out of a run. */
  datatype Got = Got(candidates: nat, continuations: nat)

  function Served(svc: Service, w: World, step: Step, sessionId: string, turnId: string): Got {
    if step.SearchPosts? && step.sessionId == sessionId && step.turnId == turnId then
      var found := Search(svc, w, sessionId, turnId, step.args).1;
      if found.Err? then Got(0, 0) else Got(|found.value.posts|, if step.args.cursor.Some? then 1 else 0)
    else Got(0, 0)
  }

  function Total(svc: Service, w: World, steps: seq<Step>, sessionId: string, turnId: string): Got
    decreases |steps|
  {
    if steps == [] then Got(0, 0)
    else
      var now, later := Served(svc, w, steps[0], sessionId, turnId),
                        Total(svc, Next(svc, w, steps[0]), steps[1..], sessionId, turnId);
      Got(now.candidates + later.candidates, now.continuations + later.continuations)
  }

  predicate Binds(step: Step, sessionId: string) {
    step.BindSession? && step.sessionId == sessionId
  }

  ghost predicate WithinBudget(w: World) {
    forall k <- w.usage :: w.usage[k].candidates <= MAX_CANDIDATES && w.usage[k].continuations <= MAX_CONTINUATIONS
  }

  function CurrentUsage(w: World, sessionId: string, turnId: string): Usage {
    if sessionId in w.sys.reg.scopes
    then UsageOf(w, UsageKey(sessionId, w.sys.reg.scopes[sessionId].generation, turnId)) else Usage(0, 0, 0)
  }

  ghost predicate Inv(w: World) {
    R.Inv(w.sys) && WithinBudget(w)
  }

  /** A service that was just started is within every budget. */
  lemma FreshServiceIsWithinBudget(nonce: string)
    ensures Inv(World(R.System(R.EmptyRegistry(nonce), map[], map[]), map[]))
  {
  }

  lemma SpendKeepsInv(svc: Service, w: World, scope: R.Scope, turnId: string, goal: Goal, context: Option<(R.Kind, string)>,
                      continues: bool, offset: nat)
    requires Inv(w) && scope.sessionId in w.sys.reg.scopes && w.sys.reg.scopes[scope.sessionId] == scope
    ensures Inv(Spend(svc, w, scope, turnId, goal, context, continues, offset).0)
    ensures R.Grows(w.sys.reg, Spend(svc, w, scope, turnId, goal, context, continues, offset).0.sys.reg)
  {
    hide R.Inv, R.Grows, R.IssueSearchCursor;
    R.GrowsFromItself(w.sys.reg);
    forall next: nat
      ensures R.Inv(w.sys.(reg := R.IssueSearchCursor(w.sys.reg, scope, Signature(svc, goal, context),
                                                      OrderOf(Candidates(svc.riskPosts, goal)), next).0))
      ensures R.Grows(w.sys.reg, R.IssueSearchCursor(w.sys.reg, scope, Signature(svc, goal, context),
                                                     OrderOf(Candidates(svc.riskPosts, goal)), next).0)
    {
      assert R.Known(w.sys.reg, scope);
      R.SearchCursorKeepsInv(w.sys, scope, Signature(svc, goal, context), OrderOf(Candidates(svc.riskPosts, goal)), next);
    }
  }

  lemma SearchKeepsInv(svc: Service, w: World, sessionId: string, turnId: string, args: SearchArgs)
    requires Inv(w)
    ensures Inv(Search(svc, w, sessionId, turnId, args).0)
    ensures R.Grows(w.sys.reg, Search(svc, w, sessionId, turnId, args).0.sys.reg)
  {
    hide Inv, R.Grows, Spend, R.ResolveSearchCursor, CheckGoal, ContextOf, CursorOf;
    R.GrowsFromItself(w.sys.reg);
    if sessionId in w.sys.reg.scopes {
      ScopeIsItsSessions(w, sessionId);
      forall goal, context, continues, offset: nat
        ensures Inv(Spend(svc, w, w.sys.reg.scopes[sessionId], turnId, goal, context, continues, offset).0)
        ensures R.Grows(w.sys.reg, Spend(svc, w, w.sys.reg.scopes[sessionId], turnId, goal, context, continues, offset).0.sys.reg)
      {
        SpendKeepsInv(svc, w, w.sys.reg.scopes[sessionId], turnId, goal, context, continues, offset);
      }
    }
  }

  lemma ScopeIsItsSessions(w: World, sessionId: string)
    requires Inv(w) && sessionId in w.sys.reg.scopes
    ensures w.sys.reg.scopes[sessionId].sessionId == sessionId
  {
  }

  lemma NextKeepsInv(svc: Service, w: World, step: Step)
    requires Inv(w)
    ensures Inv(Next(svc, w, step)) && R.Grows(w.sys.reg, Next(svc, w, step).sys.reg)
  {
    hide R.Inv, R.Grows, Search, R.Next, R.Bind;
    R.GrowsFromItself(w.sys.reg);
    match step
    case UseRegistry(rstep) => R.NextKeepsInv(w.sys, rstep);
    case BindSession(sessionId, binding, force) =>
      if R.Bind(w.sys.reg, sessionId, binding, force).Ok? {
        R.BindKeepsInv(w.sys, sessionId, binding, force);
      }
    case SearchPosts(sessionId, turnId, args) => SearchKeepsInv(svc, w, sessionId, turnId, args);
  }

  lemma {:induction false} RunKeepsInv(svc: Service, w: World, steps: seq<Step>)
    requires Inv(w)
    ensures Inv(Run(svc, w, steps)) && R.Grows(w.sys.reg, Run(svc, w, steps).sys.reg)
    decreases |steps|
  {
    hide Inv, R.Grows, Next;
    R.GrowsFromItself(w.sys.reg);
    if steps != [] {
      NextKeepsInv(svc, w, steps[0]);
      RunKeepsInv(svc, Next(svc, w, steps[0]), steps[1..]);
      R.GrowsTransitive(w.sys.reg, Next(svc, w, steps[0]).sys.reg, Run(svc, w, steps).sys.reg);
    }
  }

  // ---- the budget of a turn ----

  lemma SearchKeepsScopes(svc: Service, w: World, sessionId: string, turnId: string, args: SearchArgs)
    ensures Search(svc, w, sessionId, turnId, args).0.sys.reg.scopes == w.sys.reg.scopes
  {
    hide Spend, R.ResolveSearchCursor, CheckGoal, ContextOf, CursorOf;
    if sessionId in w.sys.reg.scopes {
      forall goal, context, continues, offset: nat
        ensures Spend(svc, w, w.sys.reg.scopes[sessionId], turnId, goal, context, continues, offset).0.sys.reg.scopes == w.sys.reg.scopes
      {
        SpendKeepsScopes(svc, w, w.sys.reg.scopes[sessionId], turnId, goal, context, continues, offset);
      }
    }
  }

  lemma SpendKeepsScopes(svc: Service, w: World, scope: R.Scope, turnId: string, goal: Goal, context: Option<(R.Kind, string)>,
                         continues: bool, offset: nat)
    ensures Spend(svc, w, scope, turnId, goal, context, continues, offset).0.sys.reg.scopes == w.sys.reg.scopes
  {
    hide Candidates, Signature, OrderOf;
  }

  lemma SpendCounts(svc: Service, w: World, scope: R.Scope, turnId: string, goal: Goal, context: Option<(R.Kind, string)>,
                    continues: bool, offset: nat)
    ensures
      var (w', found) := Spend(svc, w, scope, turnId, goal, context, continues, offset);
      var key := UsageKey(scope.sessionId, scope.generation, turnId);
      && (forall k :: k != key ==> UsageOf(w', k) == UsageOf(w, k))
      && UsageOf(w', key).candidates == UsageOf(w, key).candidates + (if found.Ok? then |found.value.posts| else 0)
      && UsageOf(w', key).continuations == UsageOf(w, key).continuations + (if found.Ok? && continues then 1 else 0)
  {
    hide R.IssueSearchCursor, Candidates;
  }

  /** A search spends, of its own turn's budget, exactly what it returns. */
  lemma SearchCounts(svc: Service, w: World, sessionId: string, turnId: string, args: SearchArgs)
    requires sessionId in w.sys.reg.scopes
    ensures
      var (w', found) := Search(svc, w, sessionId, turnId, args);
      var scope := w.sys.reg.scopes[sessionId];
      var key := UsageKey(scope.sessionId, scope.generation, turnId);
      && (forall k :: k != key ==> UsageOf(w', k) == UsageOf(w, k))
      && UsageOf(w', key).candidates == UsageOf(w, key).candidates + (if found.Ok? then |found.value.posts| else 0)
      && UsageOf(w', key).continuations == UsageOf(w, key).continuations + (if found.Ok? && args.cursor.Some? then 1 else 0)
  {
    hide Spend, R.ResolveSearchCursor, CheckGoal, ContextOf, Candidates, UsageOf;
    forall goal, context, continues, offset: nat
      ensures
        var (w', found) := Spend(svc, w, w.sys.reg.scopes[sessionId], turnId, goal, context, continues, offset);
        var scope := w.sys.reg.scopes[sessionId];
        var key := UsageKey(scope.sessionId, scope.generation, turnId);
        && (forall k :: k != key ==> UsageOf(w', k) == UsageOf(w, k))
        && UsageOf(w', key).candidates == UsageOf(w, key).candidates + (if found.Ok? then |found.value.posts| else 0)
        && UsageOf(w', key).continuations == UsageOf(w, key).continuations + (if found.Ok? && continues then 1 else 0)
    {
      SpendCounts(svc, w, w.sys.reg.scopes[sessionId], turnId, goal, context, continues, offset);
    }
  }

  lemma StepCounts(svc: Service, w: World, step: Step, sessionId: string, turnId: string)
    requires Inv(w) && sessionId in w.sys.reg.scopes && !Binds(step, sessionId)
    ensures
      var w', got := Next(svc, w, step), Served(svc, w, step, sessionId, turnId);
      && sessionId in w'.sys.reg.scopes && w'.sys.reg.scopes[sessionId] == w.sys.reg.scopes[sessionId]
      && CurrentUsage(w', sessionId, turnId).candidates == CurrentUsage(w, sessionId, turnId).candidates + got.candidates
      && CurrentUsage(w', sessionId, turnId).continuations == CurrentUsage(w, sessionId, turnId).continuations + got.continuations
  {
    hide R.Inv, Search, R.Next;
    ScopeIsItsSessions(w, sessionId);
    match step
    case UseRegistry(rstep) =>
      if !rstep.BindSession? {
        R.NextKeepsScopes(w.sys, rstep);
      }
    case BindSession(other, binding, force) =>
    case SearchPosts(other, otherTurn, args) =>
      SearchKeepsScopes(svc, w, other, otherTurn, args);
      if other in w.sys.reg.scopes {
        ScopeIsItsSessions(w, other);
        SearchCounts(svc, w, other, otherTurn, args);
      } else {
        UnboundSearches(svc, w, other, otherTurn, args);
      }
  }

  lemma UnboundSearches(svc: Service, w: World, sessionId: string, turnId: string, args: SearchArgs)
    requires sessionId !in w.sys.reg.scopes
    ensures Search(svc, w, sessionId, turnId, args) == (w, Err("investigation_scope_unbound"))
  {
  }

  /** Without a bind in between, what a turn got so far is exactly what its usage record says it spent. */
  lemma {:induction false} TotalIsUsage(svc: Service, w: World, steps: seq<Step>, sessionId: string, turnId: string)
    requires Inv(w) && sessionId in w.sys.reg.scopes
    requires forall s <- steps :: !Binds(s, sessionId)
    ensures
      var w', got := Run(svc, w, steps), Total(svc, w, steps, sessionId, turnId);
      && sessionId in w'.sys.reg.scopes && w'.sys.reg.scopes[sessionId] == w.sys.reg.scopes[sessionId]
      && CurrentUsage(w', sessionId, turnId).candidates == CurrentUsage(w, sessionId, turnId).candidates + got.candidates
      && CurrentUsage(w', sessionId, turnId).continuations == CurrentUsage(w, sessionId, turnId).continuations + got.continuations
    decreases |steps|
  {
    hide Inv, Next, Served, CurrentUsage;
    if steps != [] {
      assert steps[0] in steps && forall s <- steps[1..] :: s in steps;
      StepCounts(svc, w, steps[0], sessionId, turnId);
      NextKeepsInv(svc, w, steps[0]);
      TotalIsUsage(svc, Next(svc, w, steps[0]), steps[1..], sessionId, turnId);
    }
  }

  /** Between two binds of its session, no turn of any run gets more than twenty candidates and three continuations. */
  lemma TurnStaysInBudget(svc: Service, w: World, steps: seq<Step>, sessionId: string, turnId: string)
    requires Inv(w) && sessionId in w.sys.reg.scopes
    requires forall s <- steps :: !Binds(s, sessionId)
    ensures Total(svc, w, steps, sessionId, turnId).candidates <= MAX_CANDIDATES
    ensures Total(svc, w, steps, sessionId, turnId).continuations <= MAX_CONTINUATIONS
  {
    hide R.Inv, Total, Run;
    TotalIsUsage(svc, w, steps, sessionId, turnId);
    RunKeepsInv(svc, w, steps);
  }

  // ---- an announced continuation ----

  function Follow(args: SearchArgs, cursor: string): SearchArgs {
    args.(cursor := Some(cursor))
  }

  lemma ContextLasts(svc: Service, reg: R.Registry, reg': R.Registry, sessionId: string, contextRef: Option<string>)
    requires R.Valid(reg) && R.Valid(reg') && R.Grows(reg, reg') && sessionId in reg.scopes && sessionId in reg'.scopes
    requires reg'.scopes[sessionId] == reg.scopes[sessionId]
    requires ContextOf(svc, reg, sessionId, contextRef).Ok?
    ensures ContextOf(svc, reg', sessionId, contextRef) == ContextOf(svc, reg, sessionId, contextRef)
  {
    hide R.Resolve;
    if contextRef.Some? {
      var token := RequireString(contextRef.value).value;
      R.ResolvedIsCurrent(reg, sessionId, token, None);
      R.ResolvedIsCurrent(reg', sessionId, token, None);
    }
  }

  /** The cursor leads to `offset` for this goal and context, under this scope. */
  ghost predicate Leads(svc: Service, reg: R.Registry, scope: R.Scope, cursor: string, goal: Goal, context: Option<(R.Kind, string)>, offset: nat) {
    && cursor in reg.searchCursors
    && reg.searchCursors[cursor] ==
         R.Cursor(cursor, scope, Signature(svc, goal, context), OrderOf(Candidates(svc.riskPosts, goal)), offset,
                  "search_posts", "risk_post_candidate_directory")
  }

  lemma SpendAnnounces(svc: Service, w: World, scope: R.Scope, turnId: string, goal: Goal, context: Option<(R.Kind, string)>,
                       continues: bool, offset: nat)
    requires Spend(svc, w, scope, turnId, goal, context, continues, offset).1.Ok?
    ensures
      var (w', found) := Spend(svc, w, scope, turnId, goal, context, continues, offset);
      var usage := UsageOf(w', UsageKey(scope.sessionId, scope.generation, turnId));
      var next := found.value.offset + |found.value.posts|;
      && found.value.offset == offset
      && found.value.posts == Candidates(svc.riskPosts, goal)[offset..next]
      && (found.value.cursor.Some? <==> next < |Candidates(svc.riskPosts, goal)|)
      && (found.value.cursor.Some? ==> Leads(svc, w'.sys.reg, scope, found.value.cursor.value, goal, context, next))
      && (found.value.canContinue ==>
            && found.value.cursor.Some? && Leads(svc, w'.sys.reg, scope, found.value.cursor.value, goal, context, next)
            && next < |Candidates(svc.riskPosts, goal)|
            && usage.continuations < MAX_CONTINUATIONS && usage.candidates < MAX_CANDIDATES)
  {
    hide Candidates, Signature, OrderOf;
  }

  lemma SpendServes(svc: Service, w: World, scope: R.Scope, turnId: string, goal: Goal, context: Option<(R.Kind, string)>, offset: nat)
    requires offset < |Candidates(svc.riskPosts, goal)| && goal.pageLimit >= 1
    requires
      var usage := UsageOf(w, UsageKey(scope.sessionId, scope.generation, turnId));
      usage.continuations < MAX_CONTINUATIONS && usage.candidates < MAX_CANDIDATES
    ensures
      var found := Spend(svc, w, scope, turnId, goal, context, true, offset).1;
      found.Ok? && found.value.offset == offset && |found.value.posts| >= 1
  {
    hide Candidates, R.IssueSearchCursor;
  }

  lemma GoalWantsSomething(svc: Service, args: SearchArgs, turnId: string)
    requires CheckGoal(svc, args, turnId).Ok?
    ensures CheckGoal(svc, args, turnId).value.pageLimit >= 1
    ensures svc.realReport ==> CheckGoal(svc, args, turnId).value.pageLimit == MAX_CANDIDATES
  {
  }

  /** What a successful search of this turn has established. */
  ghost predicate Announced(svc: Service, w: World, sessionId: string, turnId: string, args: SearchArgs, cursor: string, next: nat) {
    var goal, context := CheckGoal(svc, args, turnId), ContextOf(svc, w.sys.reg, sessionId, args.contextRef);
    && sessionId in w.sys.reg.scopes && goal.Ok? && context.Ok?
    && next < |Candidates(svc.riskPosts, goal.value)|
    && Leads(svc, w.sys.reg, w.sys.reg.scopes[sessionId], cursor, goal.value, context.value, next)
    && CurrentUsage(w, sessionId, turnId).continuations < MAX_CONTINUATIONS
    && CurrentUsage(w, sessionId, turnId).candidates < MAX_CANDIDATES
  }

  lemma SearchAnnounces(svc: Service, w: World, sessionId: string, turnId: string, args: SearchArgs)
    requires Inv(w) && Search(svc, w, sessionId, turnId, args).1.Ok?
    requires Search(svc, w, sessionId, turnId, args).1.value.canContinue
    ensures
      var (w', found) := Search(svc, w, sessionId, turnId, args);
      && found.value.cursor.Some?
      && Announced(svc, w', sessionId, turnId, args, found.value.cursor.value, found.value.offset + |found.value.posts|)
  {
    hide Spend, R.ResolveSearchCursor, CheckGoal, Candidates, Leads, R.Inv, ContextOf, R.Grows, R.Valid;
    var scope, goal, context := w.sys.reg.scopes[sessionId], CheckGoal(svc, args, turnId).value,
                                ContextOf(svc, w.sys.reg, sessionId, args.contextRef).value;
    var cursor := CursorOf(args.cursor).value;
    var offset := if cursor.None? then 0 else
      R.ResolveSearchCursor(w.sys.reg, sessionId, cursor.value, Signature(svc, goal, context), OrderOf(Candidates(svc.riskPosts, goal))).value.nextOffset;
    SpendAnnounces(svc, w, scope, turnId, goal, context, cursor.Some?, offset);
    ScopeIsItsSessions(w, sessionId);
    SearchKeepsScopes(svc, w, sessionId, turnId, args);
    SearchKeepsInv(svc, w, sessionId, turnId, args);
    var w' := Search(svc, w, sessionId, turnId, args).0;
    InvIsValid(w);
    InvIsValid(w');
    ContextLasts(svc, w.sys.reg, w'.sys.reg, sessionId, args.contextRef);
  }

  lemma InvIsValid(w: World)
    requires Inv(w)
    ensures R.Valid(w.sys.reg)
  {
  }

  lemma AnnouncedIsServed(svc: Service, w: World, sessionId: string, turnId: string, args: SearchArgs, cursor: string, next: nat)
    requires Inv(w) && Announced(svc, w, sessionId, turnId, args, cursor, next)
    requires Strip(cursor) == cursor != "" && |cursor| <= MAX_CURSOR
    ensures
      var found := Search(svc, w, sessionId, turnId, Follow(args, cursor)).1;
      found.Ok? && found.value.offset == next && |found.value.posts| >= 1
  {
    hide Spend, CheckGoal, Candidates, ContextOf, R.Inv, Signature, OrderOf, Strip;
    var goal, context := CheckGoal(svc, args, turnId).value, ContextOf(svc, w.sys.reg, sessionId, args.contextRef).value;
    SameGoal(svc, args, turnId, cursor);
    GoalWantsSomething(svc, args, turnId);
    ScopeIsItsSessions(w, sessionId);
    SpendServes(svc, w, w.sys.reg.scopes[sessionId], turnId, goal, context, next);
  }

  lemma SameGoal(svc: Service, args: SearchArgs, turnId: string, cursor: string)
    ensures CheckGoal(svc, Follow(args, cursor), turnId) == CheckGoal(svc, args, turnId)
  {
  }

  lemma AnnouncementLasts(svc: Service, w: World, steps: seq<Step>, sessionId: string, turnId: string, args: SearchArgs, cursor: string, next: nat)
    requires Inv(w) && Announced(svc, w, sessionId, turnId, args, cursor, next)
    requires forall s <- steps :: !Binds(s, sessionId)
    requires Total(svc, w, steps, sessionId, turnId) == Got(0, 0)
    ensures Announced(svc, Run(svc, w, steps), sessionId, turnId, args, cursor, next)
  {
    hide Run, Total, CheckGoal, Candidates, ContextOf, R.Inv, CurrentUsage, R.Valid, Signature, OrderOf;
    TotalIsUsage(svc, w, steps, sessionId, turnId);
    RunKeepsInv(svc, w, steps);
    InvIsValid(w);
    InvIsValid(Run(svc, w, steps));
    ContextLasts(svc, w.sys.reg, Run(svc, w, steps).sys.reg, sessionId, args.contextRef);
  }

  /** A counter with that many digits still prints cursors that the argument check admits. */
  const COUNTER_DIGITS := 120

  lemma CursorIsNextToken(svc: Service, w: World, sessionId: string, turnId: string, args: SearchArgs)
    requires Search(svc, w, sessionId, turnId, args).1.Ok? && Search(svc, w, sessionId, turnId, args).1.value.cursor.Some?
    ensures Search(svc, w, sessionId, turnId, args).1.value.cursor.value == R.NextToken(w.sys.reg, "r")
  {
    hide CheckGoal, ContextOf, CursorOf, Candidates, R.ResolveSearchCursor;
  }

  lemma NextTokenIsPlain(reg: R.Registry)
    requires IsNonce(reg.nonce) && reg.counter + 1 < PowerOfTen(COUNTER_DIGITS)
    ensures
      var cursor := R.NextToken(reg, "r");
      Strip(cursor) == cursor != "" && |cursor| <= MAX_CURSOR
  {
    var cursor := R.NextToken(reg, "r");
    DecimalLength(reg.counter + 1, COUNTER_DIGITS);
    hide Strip, PowerOfTen, Decimal;
    assert cursor[0] == 'r' && cursor[|cursor| - 1] == reg.nonce[5];
    StripKeeps(cursor);
  }

  /**
    `can_continue_this_turn` keeps its word: whatever else happens, short of a bind of the session or
    further results for the same turn, the call with that cursor and the same goal is not refused and
    returns the next candidates, at least one.
  */
  lemma ContinuationIsServed(svc: Service, w: World, sessionId: string, turnId: string, args: SearchArgs, steps: seq<Step>)
    requires Inv(w) && Search(svc, w, sessionId, turnId, args).1.Ok?
    requires Search(svc, w, sessionId, turnId, args).1.value.canContinue
    requires forall s <- steps :: !Binds(s, sessionId)
    requires Total(svc, Search(svc, w, sessionId, turnId, args).0, steps, sessionId, turnId) == Got(0, 0)
    requires IsNonce(w.sys.reg.nonce) && w.sys.reg.counter + 1 < PowerOfTen(COUNTER_DIGITS)
    ensures
      var (w1, found) := Search(svc, w, sessionId, turnId, args);
      && found.value.cursor.Some?
      && var again := Search(svc, Run(svc, w1, steps), sessionId, turnId, Follow(args, found.value.cursor.value)).1;
      && again.Ok?
      && again.value.offset == found.value.offset + |found.value.posts|
      && |again.value.posts| >= 1
  {
    hide Inv, Search, Run, Total, Announced, Strip;
    var (w1, found) := Search(svc, w, sessionId, turnId, args);
    SearchAnnounces(svc, w, sessionId, turnId, args);
    SearchKeepsInv(svc, w, sessionId, turnId, args);
    var next := found.value.offset + |found.value.posts|;
    CursorIsNextToken(svc, w, sessionId, turnId, args);
    NextTokenIsPlain(w.sys.reg);
    AnnouncementLasts(svc, w1, steps, sessionId, turnId, args, found.value.cursor.value, next);
    RunKeepsInv(svc, w1, steps);
    AnnouncedIsServed(svc, Run(svc, w1, steps), sessionId, turnId, args, found.value.cursor.value, next);
  }

  /**
    Over a real report a page takes all that is left of the budget, so it never announces a
    continuation within the turn.
  */
  lemma RealReportNeverContinues(svc: Service, w: World, sessionId: string, turnId: string, args: SearchArgs)
    requires svc.realReport && Search(svc, w, sessionId, turnId, args).1.Ok?
    ensures !Search(svc, w, sessionId, turnId, args).1.value.canContinue
  {
    hide CheckGoal, ContextOf, R.ResolveSearchCursor, Candidates, R.IssueSearchCursor;
    GoalWantsSomething(svc, args, turnId);
  }
}
