/** A tool call that nothing interrupts: when its commit goes through, and that its references then work. */
module NavigationCommits {
  import opened Wrappers
  import opened Navigation
  import opened NavigationRuns
  import opened Sorting
  import opened Sublists
  import R = ReportTaskRefs

  function KeyAt(scope: R.Scope, x: Item): R.ObjectKey {
    R.ObjectKey(scope.sessionId, scope.generation, x.kind, x.objectId)
  }

  predicate Indexed(reg: R.Registry, scope: R.Scope, x: Item) {
    KeyAt(scope, x) in reg.byObject
  }

  /** No object is listed twice unless it has a published reference already. */
  ghost predicate NoNewRepeat(reg: R.Registry, scope: R.Scope, items: seq<Item>) {
    forall i, j | 0 <= i < j < |items| && KeyAt(scope, items[i]) == KeyAt(scope, items[j]) :: Indexed(reg, scope, items[i])
  }

  // ---- what is staged, as tokens with their object keys ----

  type Pair = (string, R.ObjectKey)

  ghost function Pairs(staged: seq<R.Record>): set<Pair> {
    set r <- staged :: (r.token, R.KeyOf(r))
  }

  ghost function TokensOf(staged: seq<R.Record>): set<string> {
    set r <- staged :: r.token
  }

  lemma {:induction false} StagePairs(staged: seq<R.Record>, r: R.Record)
    requires forall x <- staged :: x.token == r.token ==> R.KeyOf(x) == R.KeyOf(r)
    ensures Pairs(R.Stage(staged, r)) == Pairs(staged) + {(r.token, R.KeyOf(r))}
  {
    if staged != [] {
      assert staged == [staged[0]] + staged[1..];
      if staged[0].token != r.token {
        StagePairs(staged[1..], r);
        assert R.Stage(staged, r) == [staged[0]] + R.Stage(staged[1..], r);
        assert Pairs(R.Stage(staged, r)) == {(staged[0].token, R.KeyOf(staged[0]))} + Pairs(R.Stage(staged[1..], r));
      } else {
        assert Pairs([r] + staged[1..]) == {(r.token, R.KeyOf(r))} + Pairs(staged[1..]);
        assert Pairs(staged) == {(staged[0].token, R.KeyOf(staged[0]))} + Pairs(staged[1..]);
      }
    }
  }

  /** A later allocation cannot meet a token of the registry or of the batch, and both agree on what a token stands for. */
  ghost predicate Tidy(reg: R.Registry, staged: seq<R.Record>) {
    && R.Spent(reg.counter, reg.records.Keys + TokensOf(staged))
    && forall x <- staged :: x.token in reg.records ==> R.KeyOf(reg.records[x.token]) == R.KeyOf(x)
  }

  ghost predicate Open(reg: R.Registry, batch: R.Batch) {
    R.Valid(reg) && IsCurrent(reg, batch.scope) && Tidy(reg, batch.staged)
  }

  lemma CountingKeepsValid(reg: R.Registry, counter: nat)
    requires R.Valid(reg)
    ensures R.Valid(reg.(counter := counter))
  {
    var reg' := reg.(counter := counter);
    assert forall x :: R.Known(reg, x) <==> R.Known(reg', x);
  }

  lemma TidyAfter(reg: R.Registry, staged: seq<R.Record>, r: R.Record, counter: nat)
    requires Tidy(reg, staged) && (forall x <- staged :: x.token == r.token ==> R.KeyOf(x) == R.KeyOf(r))
    requires r.token in reg.records ==> R.KeyOf(reg.records[r.token]) == R.KeyOf(r)
    requires R.Spent(counter, reg.records.Keys + TokensOf(staged) + {r.token})
    ensures Tidy(reg.(counter := counter), R.Stage(staged, r))
  {
    StagePlaces(staged, r);
    assert TokensOf(R.Stage(staged, r)) <= TokensOf(staged) + {r.token};
  }

  /** What an exposure that stages `r` does to the batch. */
  ghost predicate Adds(reg: R.Registry, batch: R.Batch, e: R.Exposed, key: R.ObjectKey) {
    && e.reg == reg.(counter := e.reg.counter) && Open(e.reg, e.batch) && e.batch == batch.(staged := e.batch.staged)
    && Pairs(e.batch.staged) == Pairs(batch.staged) + {(e.token, key)}
  }

  lemma ExposeIndexed(reg: R.Registry, batch: R.Batch, x: Item)
    requires Open(reg, batch) && Indexed(reg, batch.scope, x)
    ensures
      var e := R.Expose(reg, batch, x.kind, x.objectId, x.origin);
      Adds(reg, batch, e, KeyAt(batch.scope, x)) && e.token == reg.byObject[KeyAt(batch.scope, x)]
  {
    hide R.Stage, R.Spent, Pairs, TokensOf, R.RecordsOk, R.ScopesOk, R.CursorsOk;
    var e, key := R.Expose(reg, batch, x.kind, x.objectId, x.origin), KeyAt(batch.scope, x);
    var found := reg.records[reg.byObject[key]];
    var r := found.(origins := if x.origin in found.origins then found.origins else found.origins + [x.origin]);
    IndexedRecord(reg, key);
    assert r.token in reg.records && R.KeyOf(r) == key;
    assert reg.records.Keys + TokensOf(batch.staged) + {r.token} == reg.records.Keys + TokensOf(batch.staged);
    StagePairs(batch.staged, r);
    TidyAfter(reg, batch.staged, r, reg.counter);
  }

  lemma IndexedRecord(reg: R.Registry, key: R.ObjectKey)
    requires R.Valid(reg) && key in reg.byObject
    ensures reg.byObject[key] in reg.records
    ensures reg.records[reg.byObject[key]].token == reg.byObject[key] && R.KeyOf(reg.records[reg.byObject[key]]) == key
  {
  }

  lemma ExposeNew(reg: R.Registry, batch: R.Batch, x: Item)
    requires Open(reg, batch) && !Indexed(reg, batch.scope, x)
    ensures
      var e := R.Expose(reg, batch, x.kind, x.objectId, x.origin);
      Adds(reg, batch, e, KeyAt(batch.scope, x)) && e.token !in reg.records.Keys + TokensOf(batch.staged)
  {
    hide R.Stage, R.Spent, Pairs, R.Valid;
    var r := R.Record(R.NextToken(reg, R.Prefix(x.kind)), batch.scope, x.kind, x.objectId, [x.origin]);
    R.NextTokenIsNew(reg, R.Prefix(x.kind), reg.records.Keys + TokensOf(batch.staged));
    assert forall y <- batch.staged :: y.token in TokensOf(batch.staged);
    hide TokensOf;
    StagePairs(batch.staged, r);
    TidyAfter(reg, batch.staged, r, reg.counter + 1);
    CountingKeepsValid(reg, reg.counter + 1);
  }

  /** One exposure adds one pair; its token is the published one of the object, or a new one. */
  lemma ExposeOne(reg: R.Registry, batch: R.Batch, x: Item)
    requires Open(reg, batch)
    ensures
      var e := R.Expose(reg, batch, x.kind, x.objectId, x.origin);
      && Adds(reg, batch, e, KeyAt(batch.scope, x))
      && (if Indexed(reg, batch.scope, x) then e.token == reg.byObject[KeyAt(batch.scope, x)]
          else e.token !in reg.records.Keys + TokensOf(batch.staged))
  {
    hide R.Expose, Adds, Open;
    if Indexed(reg, batch.scope, x) {
      ExposeIndexed(reg, batch, x);
    } else {
      ExposeNew(reg, batch, x);
    }
  }

  /** The token of every item, given what was in use before. */
  ghost predicate Tokens(reg: R.Registry, scope: R.Scope, items: seq<Item>, tokens: seq<string>, used: set<string>) {
    && |tokens| == |items|
    && (forall i | 0 <= i < |items| ::
          if Indexed(reg, scope, items[i]) then tokens[i] == reg.byObject[KeyAt(scope, items[i])] else tokens[i] !in used)
    && (forall i, j | 0 <= i < j < |items| && !Indexed(reg, scope, items[i]) && !Indexed(reg, scope, items[j]) ::
          tokens[i] != tokens[j])
  }

  ghost function NewPairs(scope: R.Scope, items: seq<Item>, tokens: seq<string>): set<Pair>
    requires |tokens| == |items|
  {
    set i | 0 <= i < |items| :: (tokens[i], KeyAt(scope, items[i]))
  }

  lemma {:induction false} ExposeAllPairs(reg: R.Registry, batch: R.Batch, items: seq<Item>)
    requires Open(reg, batch)
    ensures
      var s := ExposeAll(reg, batch, items);
      && s.reg == reg.(counter := s.reg.counter)
      && Pairs(s.batch.staged) == Pairs(batch.staged) + NewPairs(batch.scope, items, s.tokens)
      && Tokens(reg, batch.scope, items, s.tokens, reg.records.Keys + TokensOf(batch.staged))
    decreases |items|
  {
    if items != [] {
      hide R.Expose, R.Valid, Tidy;
      var e := R.Expose(reg, batch, items[0].kind, items[0].objectId, items[0].origin);
      ExposeOne(reg, batch, items[0]);
      ExposeAllPairs(e.reg, e.batch, items[1..]);
      var s, rest := ExposeAll(reg, batch, items), ExposeAll(e.reg, e.batch, items[1..]);
      OneMoreToken(reg, e.reg, batch, e.batch, items, e.token, rest.tokens);
      OneMorePair(batch.scope, items, s.tokens);
    }
  }

  lemma OneMorePair(scope: R.Scope, items: seq<Item>, tokens: seq<string>)
    requires items != [] && |tokens| == |items|
    ensures NewPairs(scope, items, tokens) == {(tokens[0], KeyAt(scope, items[0]))} + NewPairs(scope, items[1..], tokens[1..])
  {
    var all, rest := NewPairs(scope, items, tokens), NewPairs(scope, items[1..], tokens[1..]);
    forall p ensures p in all <==> p == (tokens[0], KeyAt(scope, items[0])) || p in rest {
      if p in all {
        var i :| 0 <= i < |items| && p == (tokens[i], KeyAt(scope, items[i]));
        if i > 0 {
          assert items[1..][i - 1] == items[i] && tokens[1..][i - 1] == tokens[i];
        }
      }
      if p in rest {
        var i :| 0 <= i < |items[1..]| && p == (tokens[1..][i], KeyAt(scope, items[1..][i]));
        assert items[1..][i] == items[i + 1] && tokens[1..][i] == tokens[i + 1];
      }
    }
  }

  lemma OneMoreToken(reg: R.Registry, reg': R.Registry, batch: R.Batch, batch': R.Batch, items: seq<Item>, token: string, tokens: seq<string>)
    requires items != [] && reg' == reg.(counter := reg'.counter) && batch'.scope == batch.scope
    requires Pairs(batch'.staged) == Pairs(batch.staged) + {(token, KeyAt(batch.scope, items[0]))}
    requires if Indexed(reg, batch.scope, items[0]) then token == reg.byObject[KeyAt(batch.scope, items[0])]
             else token !in reg.records.Keys + TokensOf(batch.staged)
    requires Tokens(reg', batch.scope, items[1..], tokens, reg'.records.Keys + TokensOf(batch'.staged))
    ensures Tokens(reg, batch.scope, items, [token] + tokens, reg.records.Keys + TokensOf(batch.staged))
  {
    StagedTokens(batch.staged, batch'.staged, token, KeyAt(batch.scope, items[0]));
    var all := [token] + tokens;
    forall i | 0 <= i < |items|
      ensures if Indexed(reg, batch.scope, items[i]) then all[i] == reg.byObject[KeyAt(batch.scope, items[i])]
              else all[i] !in reg.records.Keys + TokensOf(batch.staged)
    {
      if i > 0 {
        assert items[1..][i - 1] == items[i] && all[i] == tokens[i - 1];
      }
    }
    forall i, j | 0 <= i < j < |items| && !Indexed(reg, batch.scope, items[i]) && !Indexed(reg, batch.scope, items[j])
      ensures all[i] != all[j]
    {
      assert items[1..][j - 1] == items[j] && all[j] == tokens[j - 1];
      if i > 0 {
        assert items[1..][i - 1] == items[i] && all[i] == tokens[i - 1];
      }
    }
  }

  lemma StagedTokens(staged: seq<R.Record>, staged': seq<R.Record>, token: string, key: R.ObjectKey)
    requires Pairs(staged') == Pairs(staged) + {(token, key)}
    ensures TokensOf(staged') == TokensOf(staged) + {token}
  {
    forall t ensures t in TokensOf(staged') <==> t in TokensOf(staged) + {token} {
      if t in TokensOf(staged') {
        var r :| r in staged' && r.token == t;
        assert (t, R.KeyOf(r)) in Pairs(staged');
      }
      if t in TokensOf(staged) {
        var r :| r in staged && r.token == t;
        assert (t, R.KeyOf(r)) in Pairs(staged');
      }
      if t == token {
        assert (token, key) in Pairs(staged');
      }
    }
  }

  lemma PublishableAsPairs(byObject: map<R.ObjectKey, string>, staged: seq<R.Record>)
    ensures R.Publishable(byObject, staged) <==>
      && (forall p <- Pairs(staged) :: p.1 in byObject ==> byObject[p.1] == p.0)
      && (forall p, q | p in Pairs(staged) && q in Pairs(staged) && p.1 == q.1 :: p.0 == q.0)
  {
    if R.Publishable(byObject, staged) {
      forall p, q | p in Pairs(staged) && q in Pairs(staged) && p.1 == q.1 ensures p.0 == q.0 {
        var r :| r in staged && p == (r.token, R.KeyOf(r));
        var x :| x in staged && q == (x.token, R.KeyOf(x));
        var i :| 0 <= i < |staged| && staged[i] == r;
        var j :| 0 <= j < |staged| && staged[j] == x;
        assert forall k, l | 0 <= k < l < |staged| && R.KeyOf(staged[k]) == R.KeyOf(staged[l]) :: staged[k].token == staged[l].token;
      }
    }
    assert forall r <- staged :: (r.token, R.KeyOf(r)) in Pairs(staged);
  }

  function EmptyBatch(scope: R.Scope): R.Batch {
    R.Batch(scope, [], false)
  }

  /** The commit of an uninterrupted call goes through exactly if it lists no object twice that has no reference yet. */
  lemma LoneCallCommitsIff(reg: R.Registry, scope: R.Scope, items: seq<Item>)
    requires R.Valid(reg) && R.Spent(reg.counter, reg.records.Keys) && IsCurrent(reg, scope)
    ensures
      var s := ExposeAll(reg, EmptyBatch(scope), items);
      R.Commit(s.reg, s.batch).1.Ok? <==> NoNewRepeat(reg, scope, items)
  {
    hide R.Expose, R.Valid, ExposeAll, R.Publish;
    var s := ExposeAll(reg, EmptyBatch(scope), items);
    assert reg.records.Keys + TokensOf([]) == reg.records.Keys;
    assert Open(reg, EmptyBatch(scope));
    ExposeAllPairs(reg, EmptyBatch(scope), items);
    R.PublishSucceedsIff(s.reg, s.batch.staged);
    PublishableAsPairs(reg.byObject, s.batch.staged);
    var pairs := Pairs(s.batch.staged);
    assert pairs == NewPairs(scope, items, s.tokens);
    RepeatsDecide(reg, scope, items, s.tokens, reg.records.Keys);
  }

  lemma RepeatsDecide(reg: R.Registry, scope: R.Scope, items: seq<Item>, tokens: seq<string>, used: set<string>)
    requires Tokens(reg, scope, items, tokens, used)
    ensures NoNewRepeat(reg, scope, items) <==>
      && (forall p <- NewPairs(scope, items, tokens) :: p.1 in reg.byObject ==> reg.byObject[p.1] == p.0)
      && (forall p, q | p in NewPairs(scope, items, tokens) && q in NewPairs(scope, items, tokens) && p.1 == q.1 :: p.0 == q.0)
  {
    var pairs := NewPairs(scope, items, tokens);
    if NoNewRepeat(reg, scope, items) {
      forall p, q | p in pairs && q in pairs && p.1 == q.1 ensures p.0 == q.0 {
        var i :| 0 <= i < |items| && p == (tokens[i], KeyAt(scope, items[i]));
        var j :| 0 <= j < |items| && q == (tokens[j], KeyAt(scope, items[j]));
        assert i != j ==> Indexed(reg, scope, items[if i < j then i else j]);
      }
    }
    if forall p, q | p in pairs && q in pairs && p.1 == q.1 :: p.0 == q.0 {
      forall i, j | 0 <= i < j < |items| && KeyAt(scope, items[i]) == KeyAt(scope, items[j]) ensures Indexed(reg, scope, items[i]) {
        assert (tokens[i], KeyAt(scope, items[i])) in pairs && (tokens[j], KeyAt(scope, items[j])) in pairs;
      }
    }
  }

  // ---- the call as a run ----

  function Exposures(id: nat, n: nat): seq<Step> {
    seq(n, i => ExposeNext(id))
  }

  /** A tool call without interference: it starts, exposes what it lists, and commits. */
  function Alone(id: nat, sessionId: string, call: Call, n: nat): seq<Step> {
    [Start(id, sessionId, call)] + Exposures(id, n) + [Finish(id)]
  }

  lemma {:induction false} RunConcat(rep: Report, w: World, a: seq<Step>, b: seq<Step>)
    ensures Run(rep, w, a + b) == Run(rep, Run(rep, w, a), b)
    decreases |a|
  {
    hide Next;
    if a == [] {
      assert a + b == b;
    } else {
      RunConcat(rep, Next(rep, w, a[0]), a[1..], b);
      assert (a + b)[0] == a[0] && (a + b)[1..] == a[1..] + b;
    }
  }

  lemma {:induction false} RunExposes(rep: Report, w: World, id: nat)
    requires id in w.todo && id in w.sys.batches && !w.sys.batches[id].committed && IsCurrent(w.sys.reg, w.sys.batches[id].scope)
    ensures
      var w', s := Run(rep, w, Exposures(id, |w.todo[id]|)), ExposeAll(w.sys.reg, w.sys.batches[id], w.todo[id]);
      && w'.sys.reg == s.reg && id in w'.sys.batches && w'.sys.batches[id] == s.batch
      && id in w'.todo && w'.todo[id] == []
    decreases |w.todo[id]|
  {
    var items, steps := w.todo[id], Exposures(id, |w.todo[id]|);
    if items != [] {
      ExposeKeepsOpen(w.sys.reg, w.sys.batches[id], items[0]);
      hide R.Expose;
      var next := Next(rep, w, ExposeNext(id));
      RunExposes(rep, next, id);
      assert steps[0] == ExposeNext(id) && steps[1..] == Exposures(id, |items| - 1);
    }
  }

  /** Every shown token stands for its item, and now resolves to it. */
  ghost predicate AllWork(reg: R.Registry, sessionId: string, items: seq<Item>, tokens: seq<string>)
    requires |tokens| == |items|
  {
    forall i | 0 <= i < |items| ::
      var r := R.Resolve(reg, sessionId, tokens[i], Some(items[i].kind));
      r.Ok? && r.value.objectId == items[i].objectId
  }

  lemma RegistryTokensSpent(sys: R.System)
    requires R.Inv(sys)
    ensures R.Valid(sys.reg) && R.Spent(sys.reg.counter, sys.reg.records.Keys)
  {
    assert forall t <- sys.reg.records :: R.Minted(sys.minted, sys.reg.records[t]) && t in sys.minted;
  }

  /**
    A tool call that no other call or bind interrupts commits if and only if it lists no object twice
    that has no reference yet; and then every reference it shows resolves to the object shown.
  */
  lemma LoneCallAnswersIff(rep: Report, w: World, id: nat, sessionId: string, call: Call)
    requires WellFormed(rep) && Inv(rep, w) && id !in w.todo && sessionId in w.sys.reg.scopes
    requires ItemsOf(rep, w.sys.reg, sessionId, call).Ok?
    ensures
      var items, scope := ItemsOf(rep, w.sys.reg, sessionId, call).value, w.sys.reg.scopes[sessionId];
      var w', s := Run(rep, w, Alone(id, sessionId, call, |items|)), ExposeAll(w.sys.reg, EmptyBatch(scope), items);
      && id in w'.sys.batches
      && (w'.sys.batches[id].committed <==> NoNewRepeat(w.sys.reg, scope, items))
      && (w'.sys.batches[id].committed ==> AllWork(w'.sys.reg, sessionId, items, s.tokens))
  {
    hide WellFormed, Legit, R.Inv, RecordsLegit, ParentsIndexed, BatchOk, ItemsOf, R.Commit, R.Valid, R.Resolve, NoNewRepeat, ExposeAll, R.Expose, Pairs, TokensOf;
    var items, scope := ItemsOf(rep, w.sys.reg, sessionId, call).value, w.sys.reg.scopes[sessionId];
    RegistryTokensSpent(w.sys);
    ScopeNamesSession(w.sys.reg, sessionId);
    var w1 := Next(rep, w, Start(id, sessionId, call));
    assert w1.sys.batches[id] == EmptyBatch(scope) && w1.todo[id] == items && w1.sys.reg == w.sys.reg;
    var w2 := Run(rep, w1, Exposures(id, |items|));
    RunExposes(rep, w1, id);
    var s, w3 := ExposeAll(w.sys.reg, EmptyBatch(scope), items), Next(rep, w2, Finish(id));
    assert Run(rep, w, Alone(id, sessionId, call, |items|)) == w3 by {
      RunConcat(rep, w, [Start(id, sessionId, call)], Exposures(id, |items|));
      RunConcat(rep, w, [Start(id, sessionId, call)] + Exposures(id, |items|), [Finish(id)]);
      OneStep(rep, w, Start(id, sessionId, call));
      OneStep(rep, w2, Finish(id));
    }
    LoneCallCommitsIff(w.sys.reg, scope, items);
    CommitMarks(s.reg, s.batch);
    if R.Commit(s.reg, s.batch).1.Ok? {
      StartKeepsInv(rep, w, id, sessionId, call);
      RunKeepsInv(rep, w1, Exposures(id, |items|));
      FinishedReferencesResolve(rep, w2, id);
      ShownAreStaged(w.sys.reg, scope, items);
      AllResolve(w3.sys.reg, sessionId, items, s);
    }
  }

  lemma OneStep(rep: Report, w: World, step: Step)
    ensures Run(rep, w, [step]) == Next(rep, w, step)
  {
    hide Next;
    assert Run(rep, Next(rep, w, step), []) == Next(rep, w, step);
  }

  lemma ScopeNamesSession(reg: R.Registry, sessionId: string)
    requires R.Valid(reg) && sessionId in reg.scopes
    ensures reg.scopes[sessionId].sessionId == sessionId
  {
  }

  lemma CommitMarks(reg: R.Registry, batch: R.Batch)
    requires !batch.committed
    ensures R.Commit(reg, batch).1.Ok? ==> R.Commit(reg, batch).1.value.committed
  {
    hide R.Publish;
  }

  lemma ShownAreStaged(reg: R.Registry, scope: R.Scope, items: seq<Item>)
    requires R.Valid(reg) && R.Spent(reg.counter, reg.records.Keys) && IsCurrent(reg, scope)
    ensures
      var s := ExposeAll(reg, EmptyBatch(scope), items);
      forall i | 0 <= i < |items| ::
        exists r <- s.batch.staged :: r.token == s.tokens[i] && r.kind == items[i].kind && r.objectId == items[i].objectId
  {
    hide R.Expose, R.Valid, ExposeAll;
    var s := ExposeAll(reg, EmptyBatch(scope), items);
    assert reg.records.Keys + TokensOf([]) == reg.records.Keys;
    assert Open(reg, EmptyBatch(scope));
    ExposeAllPairs(reg, EmptyBatch(scope), items);
    forall i | 0 <= i < |items|
      ensures exists r <- s.batch.staged :: r.token == s.tokens[i] && r.kind == items[i].kind && r.objectId == items[i].objectId
    {
      assert (s.tokens[i], KeyAt(scope, items[i])) in Pairs(s.batch.staged);
      var r :| r in s.batch.staged && (r.token, R.KeyOf(r)) == (s.tokens[i], KeyAt(scope, items[i]));
    }
  }

  lemma AllResolve(reg: R.Registry, sessionId: string, items: seq<Item>, s: Shown)
    requires |s.tokens| == |items|
    requires forall r <- s.batch.staged ::
      && R.Resolve(reg, sessionId, r.token, Some(r.kind)).Ok?
      && R.Resolve(reg, sessionId, r.token, Some(r.kind)).value.objectId == r.objectId
    requires forall i | 0 <= i < |items| ::
      exists r <- s.batch.staged :: r.token == s.tokens[i] && r.kind == items[i].kind && r.objectId == items[i].objectId
    ensures AllWork(reg, sessionId, items, s.tokens)
  {
    hide R.Resolve;
  }

  // ---- reports whose lists have no repetition ----

  const Itself: string -> string := (s: string) => s
  const ObjectAt: Item -> (R.Kind, string) := (x: Item) => (x.kind, x.objectId)

  ghost predicate Once(ids: seq<string>) {
    UniqueBy(ids, Itself)
  }

  /** Everything that a tool may list, it lists without repetition. */
  ghost predicate ListsOnce(rep: Report) {
    && Once(rep.postOrder) && Once(rep.caseIds) && Once(rep.findingOrder) && Once(rep.standalone)
    && (forall c <- rep.cases :: Once(rep.cases[c]))
    && (forall f <- rep.findings :: forall m <- rep.findings[f] :: Once(m.evidenceIds))
    && (forall p <- rep.evidenceByPost :: Once(rep.evidenceByPost[p]))
    && (forall p <- rep.riskComments :: Once(rep.riskComments[p]))
  }

  lemma {:induction false} FilterOnce(ids: seq<string>, keep: string -> bool)
    requires Once(ids)
    ensures Once(Filter(ids, keep))
  {
    if ids != [] {
      assert forall x: string :: Itself(x) == x;
      assert Once(ids[1..]) && ids[0] !in ids[1..] by {
        forall i | 0 <= i < |ids[1..]| ensures ids[1..][i] != ids[0] {
          assert Itself(ids[0]) != Itself(ids[i + 1]);
        }
      }
      FilterOnce(ids[1..], keep);
      FilterHas(ids[1..], keep);
      var rest := Filter(ids[1..], keep);
      forall i | 0 <= i < |rest| ensures rest[i] != ids[0] {
        assert rest[i] in rest;
      }
    }
  }

  lemma PartOnce(ids: seq<string>, from: nat, to: nat)
    requires Once(ids) && from <= to <= |ids|
    ensures Once(ids[from..to])
  {
    forall i, j | 0 <= i < j < to - from ensures Itself(ids[from..to][i]) != Itself(ids[from..to][j]) {
      assert Itself(ids[from + i]) != Itself(ids[from + j]);
    }
  }

  lemma SliceOnce(ids: seq<string>, offset: nat, n: nat)
    requires Once(ids)
    ensures Once(Slice(ids, offset, n)) && Once(Take(ids, n))
  {
    if offset <= |ids| {
      PartOnce(ids, offset, if offset + n < |ids| then offset + n else |ids|);
    }
    PartOnce(ids, 0, if n < |ids| then n else |ids|);
  }

  /** The items show these objects, one for one. */
  ghost predicate Shows(items: seq<Item>, kind: R.Kind, ids: seq<string>) {
    |items| == |ids| && forall i | 0 <= i < |ids| :: items[i].kind == kind && items[i].objectId == ids[i]
  }

  lemma ShownOnce(items: seq<Item>, kind: R.Kind, ids: seq<string>)
    requires Once(ids) && Shows(items, kind, ids)
    ensures UniqueBy(items, ObjectAt)
  {
    forall i, j | 0 <= i < j < |items| ensures ObjectAt(items[i]) != ObjectAt(items[j]) {
      assert Itself(ids[i]) != Itself(ids[j]);
    }
  }

  lemma OnceTogether(a: seq<Item>, b: seq<Item>)
    requires UniqueBy(a, ObjectAt) && UniqueBy(b, ObjectAt)
    requires forall x, y | x in a && y in b :: ObjectAt(x) != ObjectAt(y)
    ensures UniqueBy(a + b, ObjectAt)
  {
    var s := a + b;
    forall i, j | 0 <= i < j < |s| ensures ObjectAt(s[i]) != ObjectAt(s[j]) {
      if j < |a| {
        assert ObjectAt(a[i]) != ObjectAt(a[j]);
      } else if i >= |a| {
        assert ObjectAt(b[i - |a|]) != ObjectAt(b[j - |a|]);
      } else {
        assert a[i] in a && b[j - |a|] in b;
      }
    }
  }

  lemma MemberOnce(findingId: string, m: Member)
    requires Once(m.evidenceIds)
    ensures UniqueBy(MemberItems(findingId, m), ObjectAt)
  {
    var items := MemberItems(findingId, m);
    ShownOnce(items[1..], R.Evidence, m.evidenceIds);
    OnceTogether(items[..1], items[1..]);
    assert items[..1] + items[1..] == items;
  }

  /** The item is the member's post, or evidence whose parent it is. */
  predicate OfPost(rep: Report, x: Item, postId: string) {
    (x.kind.Post? && x.objectId == postId) || (x.kind.Evidence? && ParentOf(rep, x.objectId) == postId)
  }

  lemma MemberShowsItsPost(rep: Report, findingId: string, m: Member)
    requires MemberOk(rep, m)
    ensures forall x <- MemberItems(findingId, m) :: OfPost(rep, x, m.postId)
  {
    var items := MemberItems(findingId, m);
    forall x | x in items ensures OfPost(rep, x, m.postId) {
      var i :| 0 <= i < |items| && items[i] == x;
      if i > 0 {
        assert x.objectId == m.evidenceIds[i - 1] && m.evidenceIds[i - 1] in m.evidenceIds;
      }
    }
  }

  lemma {:induction false} MembersOnce(rep: Report, findingId: string, members: seq<Member>)
    requires DistinctPosts(members) && forall m <- members :: MemberOk(rep, m) && Once(m.evidenceIds)
    ensures UniqueBy(MembersItems(findingId, members), ObjectAt)
    ensures forall x <- MembersItems(findingId, members) :: exists m <- members :: OfPost(rep, x, m.postId)
  {
    if members != [] {
      hide MemberItems, ParentOf, MemberOk;
      var m, rest := members[0], members[1..];
      assert forall k <- rest :: k in members;
      MemberOnce(findingId, m);
      MemberShowsItsPost(rep, findingId, m);
      MembersOnce(rep, findingId, rest);
      forall x, y | x in MemberItems(findingId, m) && y in MembersItems(findingId, rest) ensures ObjectAt(x) != ObjectAt(y) {
        var k :| k in rest && OfPost(rep, y, k.postId);
        var j :| 0 <= j < |rest| && rest[j] == k;
        assert members[0].postId != members[j + 1].postId;
      }
      OnceTogether(MemberItems(findingId, m), MembersItems(findingId, rest));
    }
  }

  lemma TakenMembersOnce(rep: Report, findingId: string, limit: nat)
    requires FindingsOk(rep) && ListsOnce(rep) && findingId in rep.findings
    ensures UniqueBy(MembersItems(findingId, Take(rep.findings[findingId], limit)), ObjectAt)
  {
    hide MemberOk, Once;
    var all, taken := rep.findings[findingId], Take(rep.findings[findingId], limit);
    assert forall i | 0 <= i < |taken| :: taken[i] == all[i];
    MembersOnce(rep, findingId, taken);
  }

  lemma ReportOnce(rep: Report)
    requires ListsOnce(rep)
    ensures UniqueBy(ReportItems(rep), ObjectAt)
  {
    hide Once;
    if rep.published && !rep.unified {
      var n := |rep.findingOrder|;
      var items := ReportItems(rep);
      ShownOnce(items[..n], R.Finding, rep.findingOrder);
      ShownOnce(items[n..], R.Post, rep.standalone);
      OnceTogether(items[..n], items[n..]);
      assert items[..n] + items[n..] == items;
    } else if !rep.unified {
      ShownOnce(ReportItems(rep), R.Category, rep.caseIds);
    }
  }

  lemma PostsOnce(ids: seq<string>, origin: R.Origin)
    requires Once(ids)
    ensures UniqueBy(PostItems(ids, origin), ObjectAt)
  {
    hide Once;
    ShownOnce(PostItems(ids, origin), R.Post, ids);
  }

  lemma ListedOnce(ids: seq<string>, postId: string)
    requires Once(ids)
    ensures UniqueBy(EvidenceItems(ids, postId), ObjectAt) && UniqueBy(CommentItems(ids, postId), ObjectAt)
  {
    hide Once;
    ShownOnce(EvidenceItems(ids, postId), R.Evidence, ids);
    ShownOnce(CommentItems(ids, postId), R.Comment, ids);
  }

  lemma CandidatesOnce(rep: Report, f: Filters)
    requires ListsOnce(rep)
    ensures Once(RiskCandidates(rep, f)) && Once(FilteredPosts(rep, f))
  {
    hide Once;
    FilterOnce(rep.postOrder, IsRiskUnder(rep, f));
    FilterOnce(rep.postOrder, PassesUnder(rep, f));
  }

  lemma EvidenceOnce(rep: Report, postId: string, types: set<string>)
    requires ListsOnce(rep)
    ensures Once(EvidenceOfTypes(rep, postId, types))
  {
    assert Once([]);
    hide Once;
    FilterOnce(if postId in rep.evidenceByPost then rep.evidenceByPost[postId] else [], OfTypes(rep, types));
  }

  /** Over a report whose lists have no repetition, no tool call lists an object twice. */
  lemma ItemsOnce(rep: Report, reg: R.Registry, sessionId: string, call: Call)
    requires WellFormed(rep) && ListsOnce(rep) && ItemsOf(rep, reg, sessionId, call).Ok?
    ensures UniqueBy(ItemsOf(rep, reg, sessionId, call).value, ObjectAt)
  {
    assert Once([]) && forall id: string :: Once([id]);
    hide Once, R.Resolve, PostOrigins, FindMember, Filter, RiskCandidates, FilteredPosts, EvidenceOfTypes, ReportItems, MembersItems, PostItems, EvidenceItems,
      CommentItems, Take, Slice, PostsOk, CasesOk, EvidenceOk, UniqueBy;
    match call
    case ReadReport => ReportOnce(rep);
    case ListFindingPosts(ref, limit) =>
      TakenMembersOnce(rep, R.Resolve(reg, sessionId, ref, Some(R.Finding)).value.objectId, limit);
    case ListCategoryPosts(ref, limit) =>
      var c := R.Resolve(reg, sessionId, ref, Some(R.Category)).value.objectId;
      SliceOnce(rep.cases[c], 0, limit);
      PostsOnce(Take(rep.cases[c], limit), R.Origin(Some(c), "list_category_posts", "report_category_post_directory", "preview"));
    case SearchPosts(filters, offset, limit) =>
      CandidatesOnce(rep, filters);
      SliceOnce(RiskCandidates(rep, filters), offset, limit);
      PostsOnce(Slice(RiskCandidates(rep, filters), offset, limit),
                R.Origin(Some(rep.snapshotId), "search_posts", "risk_post_candidate_directory", "risk_preview"));
    case ShowPosts(tool, filters, offset, limit) =>
      CandidatesOnce(rep, filters);
      SliceOnce(FilteredPosts(rep, filters), offset, limit);
      PostsOnce(Slice(FilteredPosts(rep, filters), offset, limit), CardOrigin(rep, tool));
    case ShowAccountPost(postId) => PostsOnce([postId], CardOrigin(rep, "read_account_occurrence"));
    case ListEvidence(ref, types, limit) =>
      var p := R.Resolve(reg, sessionId, ref, Some(R.Post)).value.objectId;
      EvidenceOnce(rep, p, types);
      SliceOnce(EvidenceOfTypes(rep, p, types), 0, limit);
      ListedOnce(Take(EvidenceOfTypes(rep, p, types), limit), p);
    case ListRiskComments(ref, offset, limit) =>
      var p := R.Resolve(reg, sessionId, ref, Some(R.Post)).value.objectId;
      var all := if p in rep.riskComments then rep.riskComments[p] else [];
      SliceOnce(all, offset, limit);
      ListedOnce(Slice(all, offset, limit), p);
  }

  /** Over such a report an uninterrupted tool call always answers with references that work. */
  lemma LoneCallAnswers(rep: Report, w: World, id: nat, sessionId: string, call: Call)
    requires WellFormed(rep) && ListsOnce(rep) && Inv(rep, w) && id !in w.todo && sessionId in w.sys.reg.scopes
    requires ItemsOf(rep, w.sys.reg, sessionId, call).Ok?
    ensures
      var items, scope := ItemsOf(rep, w.sys.reg, sessionId, call).value, w.sys.reg.scopes[sessionId];
      AllWork(Run(rep, w, Alone(id, sessionId, call, |items|)).sys.reg, sessionId, items,
              ExposeAll(w.sys.reg, EmptyBatch(scope), items).tokens)
  {
    hide WellFormed, ListsOnce, Inv, ItemsOf, AllWork, ExposeAll, Run;
    ItemsOnce(rep, w.sys.reg, sessionId, call);
    LoneCallAnswersIff(rep, w, id, sessionId, call);
    var items, scope := ItemsOf(rep, w.sys.reg, sessionId, call).value, w.sys.reg.scopes[sessionId];
    forall i, j | 0 <= i < j < |items| ensures KeyAt(scope, items[i]) != KeyAt(scope, items[j]) {
      assert ObjectAt(items[i]) != ObjectAt(items[j]);
    }
  }
}
