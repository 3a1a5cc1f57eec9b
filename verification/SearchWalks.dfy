/**
  What `search_posts` finds, by the strings of its call: the risk posts with the level and decision that
  are named, each exactly once and in their frozen order, for a caller that follows the cursors.
*/
module SearchWalks {
  import opened Wrappers
  import opened Arguments
  import opened Sublists
  import opened SearchBudget
  import Tokens
  import R = ReportTaskRefs

  predicate Named(p: RiskPost, riskLevel: Option<string>, decision: Option<string>) {
    && (riskLevel.Some? ==> p.riskLevel == Strip(riskLevel.value))
    && (decision.Some? ==> p.decision == Strip(decision.value))
  }

  function NamedBy(args: SearchArgs): RiskPost -> bool {
    p => Named(p, args.riskLevel, args.decision)
  }

  /** The risk posts that a call asks for, in their frozen order. */
  function Wanted(svc: Service, args: SearchArgs): seq<RiskPost> {
    Filter(svc.riskPosts, NamedBy(args))
  }

  /** A call whose arguments and turn are in order. */
  ghost predicate GoodArgs(svc: Service, args: SearchArgs, turnId: string) {
    && turnId != ""
    && 1 <= |Strip(args.queryText)| <= 200
    && (args.riskLevel.Some? ==> var level := Strip(args.riskLevel.value); level == "low" || level == "medium" || level == "high")
    && (args.decision.Some? ==> Strip(args.decision.value) == "review" || Strip(args.decision.value) == "reject")
    && (svc.realReport ==>
          || (args.limit.None? && args.requestedCount.Some? && 1 <= args.requestedCount.value <= 20)
          || (args.requestedCount.None? && args.limit.Some? && 1 <= args.limit.value <= 10))
    && (!svc.realReport ==> args.requestedCount.None? && args.limit.Some? && 1 <= args.limit.value <= 10)
  }

  /** The context, if any, is a reference of the current scope to a post, or to a finding or category. */
  ghost predicate GoodContext(svc: Service, reg: R.Registry, sessionId: string, args: SearchArgs) {
    args.contextRef.Some? ==>
      var token := Strip(args.contextRef.value);
      && token != "" && sessionId in reg.scopes && token in reg.records && reg.records[token].scope == reg.scopes[sessionId]
      && (reg.records[token].kind == R.Post || reg.records[token].kind == (if svc.realReport then R.Finding else R.Category))
  }

  /** How many candidates one page may have. */
  function PageLimit(svc: Service, args: SearchArgs): int {
    if svc.realReport || args.limit.None? then 20 else args.limit.value
  }

  lemma OptionalIff(value: Option<string>, allowed: set<string>)
    requires "" !in allowed
    ensures OptionalOf(value, allowed).Err? ==> OptionalOf(value, allowed).code == "invalid_arguments"
    ensures OptionalOf(value, allowed).Ok? <==> (value.Some? ==> Strip(value.value) in allowed)
    ensures OptionalOf(value, allowed).Ok? && value.Some? ==> OptionalOf(value, allowed).value == Some(Strip(value.value))
    ensures value.None? ==> OptionalOf(value, allowed) == Ok(None)
  {
    hide Strip;
  }

  lemma GoalIff(svc: Service, args: SearchArgs, turnId: string)
    ensures CheckGoal(svc, args, turnId).Ok? <==> GoodArgs(svc, args, turnId)
    ensures CheckGoal(svc, args, turnId).Ok? ==>
      var goal := CheckGoal(svc, args, turnId).value;
      && goal.riskLevel == (if args.riskLevel.Some? then Some(Strip(args.riskLevel.value)) else None)
      && goal.decision == (if args.decision.Some? then Some(Strip(args.decision.value)) else None)
      && goal.pageLimit == PageLimit(svc, args) && goal.pageLimit >= 1
    ensures CheckGoal(svc, args, turnId).Err? ==>
      CheckGoal(svc, args, turnId).code == if turnId == "" then "missing_turn_identity" else "invalid_arguments"
  {
    hide Strip, OptionalOf;
    OptionalIff(args.riskLevel, {"low", "medium", "high"});
    OptionalIff(args.decision, {"review", "reject"});
  }

  lemma ContextIff(svc: Service, reg: R.Registry, sessionId: string, args: SearchArgs)
    requires R.Valid(reg)
    ensures ContextOf(svc, reg, sessionId, args.contextRef).Ok? <==> GoodContext(svc, reg, sessionId, args)
  {
    hide Strip, R.Resolve;
    if args.contextRef.Some? {
      R.ResolvedIsCurrent(reg, sessionId, Strip(args.contextRef.value), None);
    }
  }

  lemma {:induction false} CandidatesAreNamed(posts: seq<RiskPost>, goal: Goal, args: SearchArgs)
    requires goal.riskLevel == (if args.riskLevel.Some? then Some(Strip(args.riskLevel.value)) else None)
    requires goal.decision == (if args.decision.Some? then Some(Strip(args.decision.value)) else None)
    ensures Candidates(posts, goal) == Filter(posts, NamedBy(args))
  {
    hide Strip;
    if posts != [] {
      CandidatesAreNamed(posts[1..], goal, args);
      assert NamedBy(args)(posts[0]) <==> Named(posts[0], args.riskLevel, args.decision);
    }
  }

  /** Where the search stands: at the beginning, or at the offset of its cursor. */
  ghost predicate At(svc: Service, w: World, sessionId: string, turnId: string, args: SearchArgs, next: nat) {
    var goal, context := CheckGoal(svc, args, turnId), ContextOf(svc, w.sys.reg, sessionId, args.contextRef);
    && sessionId in w.sys.reg.scopes && goal.Ok? && context.Ok?
    && next <= |Wanted(svc, args)|
    && if args.cursor.None? then next == 0
       else
         && Strip(args.cursor.value) == args.cursor.value != "" && |args.cursor.value| <= MAX_CURSOR
         && Leads(svc, w.sys.reg, w.sys.reg.scopes[sessionId], args.cursor.value, goal.value, context.value, next)
  }

  ghost predicate InBudget(w: World, sessionId: string, turnId: string) {
    var usage := CurrentUsage(w, sessionId, turnId);
    usage.candidates < MAX_CANDIDATES && usage.continuations < MAX_CONTINUATIONS
  }

  /** A page of the wanted posts from this offset: as many as page and budget allow, and a cursor exactly if more follow. */
  ghost predicate IsPage(svc: Service, args: SearchArgs, usage: Usage, found: Found, offset: nat) {
    var all := Wanted(svc, args);
    && found.offset == offset <= |all| && usage.candidates <= 20
    && var size := Min(Min(PageLimit(svc, args), 20 - usage.candidates), |all| - offset);
    && 0 <= size && found.posts == all[offset..offset + size]
    && (found.cursor.Some? <==> offset + size < |all|)
  }

  /** Whatever a search finds is a page of the wanted posts, from the first one on if the call has no cursor. */
  lemma SearchFinds(svc: Service, w: World, sessionId: string, turnId: string, args: SearchArgs)
    requires Inv(w) && Search(svc, w, sessionId, turnId, args).1.Ok?
    ensures
      var found := Search(svc, w, sessionId, turnId, args).1.value;
      && GoodArgs(svc, args, turnId) && GoodContext(svc, w.sys.reg, sessionId, args)
      && IsPage(svc, args, CurrentUsage(w, sessionId, turnId), found, found.offset)
      && (args.cursor.None? ==> found.offset == 0)
      && forall p <- found.posts :: p in svc.riskPosts && Named(p, args.riskLevel, args.decision)
  {
    hide Spend, Inv, R.ResolveSearchCursor, CheckGoal, ContextOf, GoodArgs, GoodContext, Candidates, Named, Strip, PageLimit, R.Valid, Filter;
    InvIsValid(w);
    GoalIff(svc, args, turnId);
    ContextIff(svc, w.sys.reg, sessionId, args);
    var goal := CheckGoal(svc, args, turnId).value;
    CandidatesAreNamed(svc.riskPosts, goal, args);
    FilterHas(svc.riskPosts, NamedBy(args));
    var cursor, context := CursorOf(args.cursor).value, ContextOf(svc, w.sys.reg, sessionId, args.contextRef).value;
    ScopeIsItsSessions(w, sessionId);
    var offset := if cursor.None? then 0 else
      R.ResolveSearchCursor(w.sys.reg, sessionId, cursor.value, Signature(svc, goal, context),
                            OrderOf(Candidates(svc.riskPosts, goal))).value.nextOffset;
    SpendPages(svc, w, w.sys.reg.scopes[sessionId], turnId, goal, context, cursor.Some?, offset);
    var found := Search(svc, w, sessionId, turnId, args).1.value;
    forall p | p in found.posts ensures p in svc.riskPosts && Named(p, args.riskLevel, args.decision) {
      assert p in Wanted(svc, args);
    }
  }

  /** A call in order from where its cursor stands is refused exactly if its turn has no budget left for it. */
  lemma SearchRefusedIff(svc: Service, w: World, sessionId: string, turnId: string, args: SearchArgs, next: nat)
    requires Inv(w) && At(svc, w, sessionId, turnId, args, next)
    ensures
      var found, usage := Search(svc, w, sessionId, turnId, args).1, CurrentUsage(w, sessionId, turnId);
      && (found.Err? <==> usage.candidates == 20 || (args.cursor.Some? && usage.continuations == 3))
      && (found.Err? ==> found.code == "search_turn_limit_reached")
  {
    hide R.Inv, CheckGoal, ContextOf, Candidates, Signature, OrderOf, Strip, Filter, R.IssueSearchCursor;
    var goal, context := CheckGoal(svc, args, turnId).value, ContextOf(svc, w.sys.reg, sessionId, args.contextRef).value;
    GoalIff(svc, args, turnId);
    CandidatesAreNamed(svc.riskPosts, goal, args);
    ScopeIsItsSessions(w, sessionId);
    SpendRefusedIff(svc, w, w.sys.reg.scopes[sessionId], turnId, goal, context, args.cursor.Some?, next);
  }

  lemma SpendRefusedIff(svc: Service, w: World, scope: R.Scope, turnId: string, goal: Goal, context: Option<(R.Kind, string)>,
                        continues: bool, offset: nat)
    requires WithinBudget(w) && offset <= |Candidates(svc.riskPosts, goal)|
    ensures
      var found, usage := Spend(svc, w, scope, turnId, goal, context, continues, offset).1,
                          UsageOf(w, UsageKey(scope.sessionId, scope.generation, turnId));
      && (found.Err? <==> usage.candidates == 20 || (continues && usage.continuations == 3))
      && (found.Err? ==> found.code == "search_turn_limit_reached")
  {
    hide Candidates, R.IssueSearchCursor, Signature, OrderOf;
  }

  lemma SpendPages(svc: Service, w: World, scope: R.Scope, turnId: string, goal: Goal, context: Option<(R.Kind, string)>,
                   continues: bool, offset: nat)
    requires Spend(svc, w, scope, turnId, goal, context, continues, offset).1.Ok?
    ensures
      var found, all := Spend(svc, w, scope, turnId, goal, context, continues, offset).1.value, Candidates(svc.riskPosts, goal);
      var usage := UsageOf(w, UsageKey(scope.sessionId, scope.generation, turnId));
      && found.offset == offset <= |all| && usage.candidates < 20
      && var size := Min(Min(goal.pageLimit, 20 - usage.candidates), |all| - offset);
      && found.posts == all[offset..offset + size] && (found.cursor.Some? <==> offset + size < |all|)
  {
    hide Candidates, Signature, OrderOf, R.IssueSearchCursor;
  }

  /** A search within its budget is served from where it stands, with at least one post as long as any is left. */
  lemma SearchServes(svc: Service, w: World, sessionId: string, turnId: string, args: SearchArgs, next: nat)
    requires Inv(w) && At(svc, w, sessionId, turnId, args, next) && InBudget(w, sessionId, turnId)
    ensures
      var found := Search(svc, w, sessionId, turnId, args).1;
      && found.Ok? && found.value.offset == next
      && (next < |Wanted(svc, args)| ==> |found.value.posts| >= 1)
  {
    hide Spend, R.Inv, CheckGoal, ContextOf, Candidates, Signature, OrderOf, Strip, Filter;
    var goal, context := CheckGoal(svc, args, turnId).value, ContextOf(svc, w.sys.reg, sessionId, args.contextRef).value;
    GoalIff(svc, args, turnId);
    CandidatesAreNamed(svc.riskPosts, goal, args);
    ScopeIsItsSessions(w, sessionId);
    SpendPasses(svc, w, w.sys.reg.scopes[sessionId], turnId, goal, context, args.cursor.Some?, next);
  }

  lemma SpendPasses(svc: Service, w: World, scope: R.Scope, turnId: string, goal: Goal, context: Option<(R.Kind, string)>,
                    continues: bool, offset: nat)
    requires offset <= |Candidates(svc.riskPosts, goal)| && goal.pageLimit >= 1
    requires
      var usage := UsageOf(w, UsageKey(scope.sessionId, scope.generation, turnId));
      usage.continuations < MAX_CONTINUATIONS && usage.candidates < MAX_CANDIDATES
    ensures
      var found := Spend(svc, w, scope, turnId, goal, context, continues, offset).1;
      && found.Ok? && found.value.offset == offset
      && (offset < |Candidates(svc.riskPosts, goal)| ==> |found.value.posts| >= 1)
  {
    hide Candidates, R.IssueSearchCursor;
  }

  /** The cursor that a search returns stands where its page ended. */
  lemma SearchLeads(svc: Service, w: World, sessionId: string, turnId: string, args: SearchArgs)
    requires Inv(w) && Search(svc, w, sessionId, turnId, args).1.Ok?
    requires Tokens.IsNonce(w.sys.reg.nonce) && w.sys.reg.counter + 1 < Tokens.PowerOfTen(COUNTER_DIGITS)
    ensures
      var (w', found) := Search(svc, w, sessionId, turnId, args);
      found.value.cursor.Some? ==>
        At(svc, w', sessionId, turnId, Follow(args, found.value.cursor.value), found.value.offset + |found.value.posts|)
  {
    var (w', found) := Search(svc, w, sessionId, turnId, args);
    if found.value.cursor.Some? {
      hide Inv, Search, R.Grows, Leads, CheckGoal, ContextOf, R.Valid, Tokens.PowerOfTen, Strip, Candidates, Filter;
      var cursor := found.value.cursor.value;
      SearchFinds(svc, w, sessionId, turnId, args);
      CursorIsNextToken(svc, w, sessionId, turnId, args);
      NextTokenIsPlain(w.sys.reg);
      CursorLeads(svc, w, sessionId, turnId, args);
      SameGoal(svc, args, turnId, cursor);
      SearchKeepsScopes(svc, w, sessionId, turnId, args);
      SearchKeepsInv(svc, w, sessionId, turnId, args);
      InvIsValid(w);
      InvIsValid(w');
      ContextLasts(svc, w.sys.reg, w'.sys.reg, sessionId, args.contextRef);
    }
  }

  lemma CursorLeads(svc: Service, w: World, sessionId: string, turnId: string, args: SearchArgs)
    requires Search(svc, w, sessionId, turnId, args).1.Ok? && Search(svc, w, sessionId, turnId, args).1.value.cursor.Some?
    ensures
      var (w', found) := Search(svc, w, sessionId, turnId, args);
      var goal, context := CheckGoal(svc, args, turnId), ContextOf(svc, w.sys.reg, sessionId, args.contextRef);
      && goal.Ok? && context.Ok? && sessionId in w.sys.reg.scopes
      && Leads(svc, w'.sys.reg, w.sys.reg.scopes[sessionId], found.value.cursor.value, goal.value, context.value,
               found.value.offset + |found.value.posts|)
  {
    hide Spend, R.ResolveSearchCursor, CheckGoal, ContextOf, Candidates, Leads, Strip;
    var goal, context := CheckGoal(svc, args, turnId).value, ContextOf(svc, w.sys.reg, sessionId, args.contextRef).value;
    var cursor := CursorOf(args.cursor).value;
    var offset := if cursor.None? then 0 else
      R.ResolveSearchCursor(w.sys.reg, sessionId, cursor.value, Signature(svc, goal, context),
                            OrderOf(Candidates(svc.riskPosts, goal))).value.nextOffset;
    SpendAnnounces(svc, w, w.sys.reg.scopes[sessionId], turnId, goal, context, cursor.Some?, offset);
  }

  // ---- following the cursors ----

  /** A turn that asks for the next page, after whatever else happened. */
  datatype Visit = Visit(before: seq<Step>, turnId: string)

  /** What a caller sees who follows the cursors until none is left. */
  ghost function Seen(svc: Service, w: World, sessionId: string, args: SearchArgs, visits: seq<Visit>): seq<RiskPost>
    decreases |visits|
  {
    if visits == [] then []
    else
      var (w', found) := Search(svc, Run(svc, w, visits[0].before), sessionId, visits[0].turnId, args);
      if found.Err? then []
      else
        found.value.posts +
          if found.value.cursor.None? then [] else Seen(svc, w', sessionId, Follow(args, found.value.cursor.value), visits[1..])
  }

  /** No bind of the session comes in between, and each visit is made in a turn that has budget left. */
  ghost predicate Undisturbed(svc: Service, w: World, sessionId: string, args: SearchArgs, visits: seq<Visit>)
    decreases |visits|
  {
    visits != [] ==>
      && (forall s <- visits[0].before :: !Binds(s, sessionId))
      && var w0 := Run(svc, w, visits[0].before);
      && visits[0].turnId != "" && InBudget(w0, sessionId, visits[0].turnId)
      && Tokens.IsNonce(w0.sys.reg.nonce) && w0.sys.reg.counter + 1 < Tokens.PowerOfTen(COUNTER_DIGITS)
      && var (w', found) := Search(svc, w0, sessionId, visits[0].turnId, args);
      && (found.Ok? && found.value.cursor.Some? ==>
            Undisturbed(svc, w', sessionId, Follow(args, found.value.cursor.value), visits[1..]))
  }

  lemma StandLasts(svc: Service, w: World, steps: seq<Step>, sessionId: string, turnId: string, args: SearchArgs, next: nat, turnId': string)
    requires Inv(w) && At(svc, w, sessionId, turnId, args, next) && turnId' != ""
    requires forall s <- steps :: !Binds(s, sessionId)
    ensures Inv(Run(svc, w, steps)) && At(svc, Run(svc, w, steps), sessionId, turnId', args, next)
  {
    hide Run, Total, ContextOf, R.Inv, CurrentUsage, R.Valid, Signature, OrderOf, Strip, Candidates, Filter;
    TotalIsUsage(svc, w, steps, sessionId, turnId);
    RunKeepsInv(svc, w, steps);
    InvIsValid(w);
    InvIsValid(Run(svc, w, steps));
    ContextLasts(svc, w.sys.reg, Run(svc, w, steps).sys.reg, sessionId, args.contextRef);
    GoalOfAnyTurn(svc, args, turnId, turnId');
  }

  lemma GoalOfAnyTurn(svc: Service, args: SearchArgs, turnId: string, turnId': string)
    requires CheckGoal(svc, args, turnId).Ok? && turnId' != ""
    ensures CheckGoal(svc, args, turnId') == CheckGoal(svc, args, turnId)
  {
    hide Strip;
  }

  lemma {:induction false} SeenFrom(svc: Service, w: World, sessionId: string, turnId: string, args: SearchArgs, visits: seq<Visit>, next: nat)
    requires Inv(w) && At(svc, w, sessionId, turnId, args, next) && Undisturbed(svc, w, sessionId, args, visits)
    requires |visits| >= 1 && |visits| >= |Wanted(svc, args)| - next
    ensures Seen(svc, w, sessionId, args, visits) == Wanted(svc, args)[next..]
    decreases |visits|
  {
    hide Inv, At, Run, Search, Wanted, InBudget, Tokens.IsNonce, Tokens.PowerOfTen, IsPage;
    var turn, w0 := visits[0].turnId, Run(svc, w, visits[0].before);
    StandLasts(svc, w, visits[0].before, sessionId, turnId, args, next, turn);
    SearchServes(svc, w0, sessionId, turn, args, next);
    SearchFinds(svc, w0, sessionId, turn, args);
    PageIsSlice(svc, args, CurrentUsage(w0, sessionId, turn), Search(svc, w0, sessionId, turn, args).1.value, next);
    var (w', found) := Search(svc, w0, sessionId, turn, args);
    var end := next + |found.value.posts|;
    if found.value.cursor.Some? {
      var args' := Follow(args, found.value.cursor.value);
      SearchLeads(svc, w0, sessionId, turn, args);
      SearchKeepsInv(svc, w0, sessionId, turn, args);
      SameWanted(svc, args, found.value.cursor.value);
      SeenFrom(svc, w', sessionId, turn, args', visits[1..], end);
      assert Wanted(svc, args)[next..end] + Wanted(svc, args)[end..] == Wanted(svc, args)[next..];
    }
  }

  lemma PageIsSlice(svc: Service, args: SearchArgs, usage: Usage, found: Found, offset: nat)
    requires IsPage(svc, args, usage, found, offset)
    ensures offset + |found.posts| <= |Wanted(svc, args)| && found.posts == Wanted(svc, args)[offset..offset + |found.posts|]
    ensures found.cursor.Some? <==> offset + |found.posts| < |Wanted(svc, args)|
  {
    hide Wanted;
  }

  lemma SameWanted(svc: Service, args: SearchArgs, cursor: string)
    ensures Wanted(svc, Follow(args, cursor)) == Wanted(svc, args)
  {
    assert forall p :: NamedBy(Follow(args, cursor))(p) == NamedBy(args)(p);
    SameFilter(svc.riskPosts, NamedBy(Follow(args, cursor)), NamedBy(args));
  }

  lemma {:induction false} SameFilter(posts: seq<RiskPost>, a: RiskPost -> bool, b: RiskPost -> bool)
    requires forall p :: a(p) == b(p)
    ensures Filter(posts, a) == Filter(posts, b)
  {
    if posts != [] {
      SameFilter(posts[1..], a, b);
    }
  }

  /**
    A caller who searches and follows the cursors, in any turns that have budget left and over whatever
    else happens but a bind of the session, sees exactly the risk posts with the level and decision that
    the call names, each as often as the report has it and in the frozen order.
  */
  lemma CursorsEnumerateRiskPosts(svc: Service, w: World, sessionId: string, args: SearchArgs, visits: seq<Visit>)
    requires Inv(w) && sessionId in w.sys.reg.scopes && args.cursor.None?
    requires |visits| >= 1 && |visits| >= |Wanted(svc, args)| && Undisturbed(svc, w, sessionId, args, visits)
    requires GoodArgs(svc, args, visits[0].turnId) && GoodContext(svc, w.sys.reg, sessionId, args)
    ensures Seen(svc, w, sessionId, args, visits) == Wanted(svc, args)
  {
    hide R.Inv, R.Valid, Wanted, CheckGoal, ContextOf, Strip;
    InvIsValid(w);
    GoalIff(svc, args, visits[0].turnId);
    ContextIff(svc, w.sys.reg, sessionId, args);
    SeenFrom(svc, w, sessionId, visits[0].turnId, args, visits, 0);
    assert Wanted(svc, args)[0..] == Wanted(svc, args);
  }
}
