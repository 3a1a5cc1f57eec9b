/**
  `read_batch` by the strings of its call: which calls are answered, with which comments, and what a row
  of calls shows. Nothing here speaks of the parsed call.
*/
module CommentCalls {
  import opened Wrappers
  import opened Arguments
  import opened Sublists
  import opened ReferenceState
  import opened SessionStore
  import opened CommentBatches
  import D = CommentDelivery
  import R = ReportTaskRefs

  /** The comments that a filter of this name asks for. */
  predicate Asked(name: string, c: Comment) {
    || name == "all"
    || (name == "risk" && c.auditStatus == "completed" && (c.riskLevel == "low" || c.riskLevel == "medium" || c.riskLevel == "high"))
    || (name == "no_risk" && c.auditStatus == "completed" && c.riskLevel == "none")
    || (name == "unknown" && c.auditStatus != "completed")
  }

  function AskedBy(name: string): Comment -> bool {
    c => Asked(name, c)
  }

  /** The comments of a post that a filter of this name asks for, in their frozen order. */
  function Wanted(report: Report, postId: string, name: string): seq<Comment> {
    if postId in report.commentsByPost then Filter(report.commentsByPost[postId], AskedBy(name)) else []
  }

  function NameOf(args: BatchArgs): string {
    match args.riskFilter
    case Some(name) => Strip(name)
    case None => "all"
  }

  function LimitOf(limit: Option<int>): int {
    match limit
    case Some(n) => n
    case None => 100
  }

  /** A call in order, for this post. */
  ghost predicate Answerable(svc: Service, reg: R.Registry, args: BatchArgs, turnId: string, postId: string) {
    && 1 <= LimitOf(args.limit) <= 100
    && Strip(turnId) != "" && !("reference-restore:" <= turnId)
    && (Strip(args.action) == "start" || Strip(args.action) == "continue")
    && (NameOf(args) == "all" || NameOf(args) == "risk" || NameOf(args) == "no_risk" || NameOf(args) == "unknown")
    && Strip(args.postRef) != "" && PostRefLive(svc, reg, Strip(args.postRef), postId)
  }

  predicate IsFor(q: Query, postId: string, name: string) {
    q.postId == postId && FilterName(q.filter) == name
  }

  /** This post was shown under a filter of this name before. */
  ghost predicate Progressed(d: Delivery, postId: string, name: string) {
    exists q <- d.progress :: IsFor(q, postId, name)
  }

  /** The page shows the wanted comments from this offset on, as many as the limit allows. */
  ghost predicate ShowsFrom(svc: Service, args: BatchArgs, postId: string, p: Page, offset: nat) {
    var all := Wanted(svc.report, postId, NameOf(args));
    && IsFor(p.query, postId, NameOf(args)) && p.postRef == Strip(args.postRef) && !p.acknowledged
    && offset <= |all| && 0 <= LimitOf(args.limit)
    && p.comments == all[offset..Min(offset + LimitOf(args.limit), |all|)]
    && p.end == offset + |p.comments| && p.matched == |all|
    && (p.hasMore <==> p.end < |all|)
  }

  // ---- filters by name ----

  lemma {:induction false} SelectIsAsked(comments: seq<Comment>, filter: RiskFilter)
    ensures Select(comments, filter) == Filter(comments, AskedBy(FilterName(filter)))
  {
    if comments != [] {
      SelectIsAsked(comments[1..], filter);
      assert Matches(comments[0], filter) <==> Asked(FilterName(filter), comments[0]);
    }
  }

  lemma MatchingIsWanted(report: Report, q: Query)
    ensures Matching(report, q) == Wanted(report, q.postId, FilterName(q.filter))
  {
    if q.postId in report.commentsByPost {
      SelectIsAsked(report.commentsByPost[q.postId], q.filter);
    }
  }

  lemma NamesDiffer(a: RiskFilter, b: RiskFilter)
    requires FilterName(a) == FilterName(b)
    ensures a == b
  {
  }

  // ---- which calls pass ----

  lemma AnswerableIsChecked(svc: Service, reg: R.Registry, args: BatchArgs, turnId: string, postId: string)
    requires R.Valid(reg) && Answerable(svc, reg, args, turnId, postId)
    ensures
      var checked := CheckBatch(svc, reg, args, turnId);
      && checked.Ok? && IsFor(checked.value.query, postId, NameOf(args))
      && checked.value.postRef == Strip(args.postRef) && checked.value.limit == LimitOf(args.limit)
      && (checked.value.continues <==> Strip(args.action) == "continue")
  {
    hide Strip, R.Resolve, ResolvePost;
    PostResolves(svc, reg, Strip(args.postRef), postId);
    assert Strip("all") == "all" by {
      StripKeeps("all");
    }
  }

  lemma CheckedIsAnswerable(svc: Service, reg: R.Registry, args: BatchArgs, turnId: string)
    requires R.Valid(reg) && CheckBatch(svc, reg, args, turnId).Ok?
    ensures Answerable(svc, reg, args, turnId, CheckBatch(svc, reg, args, turnId).value.query.postId)
  {
    hide Strip, R.Resolve, ResolvePost;
    var c := CheckBatch(svc, reg, args, turnId).value;
    CheckedResolves(svc, reg, args, turnId);
    PostResolves(svc, reg, c.postRef, c.query.postId);
    assert Strip("all") == "all" by {
      StripKeeps("all");
    }
  }

  /** The first thing that is wrong with a call: limit or turn, a synthetic turn, the other arguments, the post. */
  lemma RefusalTells(svc: Service, reg: R.Registry, args: BatchArgs, turnId: string)
    requires CheckBatch(svc, reg, args, turnId).Err?
    ensures
      var code := CheckBatch(svc, reg, args, turnId).code;
      if !(1 <= LimitOf(args.limit) <= 100) || Strip(turnId) == "" then code == "invalid_arguments"
      else if "reference-restore:" <= turnId then code == "comment_batch_real_turn_required"
      else if !(Strip(args.action) == "start" || Strip(args.action) == "continue") then code == "invalid_arguments"
      else if !(NameOf(args) == "all" || NameOf(args) == "risk" || NameOf(args) == "no_risk" || NameOf(args) == "unknown")
      then code == "invalid_arguments"
      else if Strip(args.postRef) == "" then code == "invalid_arguments"
      else
        var record := R.Resolve(reg, svc.sessionId, Strip(args.postRef), Some(R.Post));
        if record.Err? then code == record.code
        else record.value.objectId !in svc.report.posts && code == "scope_object_missing"
  {
    hide Strip, R.Resolve;
    assert Strip("all") == "all" by {
      StripKeeps("all");
    }
  }

  // ---- what a call is answered ----

  /** The answer to a call, by its strings: refused, repeated, or a new page of the comments it asks for. */
  ghost predicate Answers(svc: Service, d: Delivery, args: BatchArgs, turnId: string, postId: string, p: Prepared) {
    if turnId in d.pages then
      && p.delivery == d && !p.stored
      && p.outcome == (if IsFor(d.pages[turnId].query, postId, NameOf(args)) then Ok(ReceiptOf(svc.sessionId, turnId, d.pages[turnId]))
                       else Err("comment_batch_turn_limit"))
    else if Strip(args.action) == "continue" && !Progressed(d, postId, NameOf(args)) then
      p.delivery == d && !p.stored && p.outcome == Err("comment_batch_not_started")
    else
      && p.stored && turnId in p.delivery.pages && p.delivery == d.(pages := d.pages[turnId := p.delivery.pages[turnId]])
      && p.outcome == Ok(ReceiptOf(svc.sessionId, turnId, p.delivery.pages[turnId]))
      && (Strip(args.action) == "start" ==> ShowsFrom(svc, args, postId, p.delivery.pages[turnId], 0))
      && (Strip(args.action) == "continue" ==>
            exists q <- d.progress :: IsFor(q, postId, NameOf(args))
              && ShowsFrom(svc, args, postId, p.delivery.pages[turnId], d.progress[q].end))
  }

  lemma CheckedIsAnswered(svc: Service, reg: R.Registry, d: Delivery, completed: set<string>, args: BatchArgs,
                          turnId: string, postId: string)
    requires RegistryOk(reg) && DeliveryOk(svc, reg, d, completed) && Answerable(svc, reg, args, turnId, postId)
    ensures Answers(svc, d, args, turnId, postId, Prepare(svc, reg, d, args, turnId))
  {
    hide DeliveryOk, RegistryOk, CheckBatch, Answerable, Wanted, Matching, Strip, PrepareChecked;
    D.ValidOfOk(reg);
    AnswerableIsChecked(svc, reg, args, turnId, postId);
    var c := CheckBatch(svc, reg, args, turnId).value;
    forall q | IsFor(q, postId, NameOf(args)) ensures q == c.query {
      NamesDiffer(q.filter, c.query.filter);
    }
    if turnId in d.pages || (c.continues && c.query !in d.progress) {
      Unstored(svc, reg, d, c, turnId);
    } else {
      CheckedOkOfAnswerable(svc, reg, args, turnId, postId, c);
      PrepareStores(svc, reg, d, completed, c, turnId);
      MatchingIsWanted(svc.report, c.query);
      SliceOfPage(svc, PrepareChecked(svc, reg, d, c, turnId).reg, PrepareChecked(svc, reg, d, c, turnId).delivery.pages[turnId]);
    }
  }

  lemma CheckedOkOfAnswerable(svc: Service, reg: R.Registry, args: BatchArgs, turnId: string, postId: string, c: Checked)
    requires Answerable(svc, reg, args, turnId, postId)
    requires c.postRef == Strip(args.postRef) && c.query.postId == postId && c.limit == LimitOf(args.limit)
    ensures CheckedOk(svc, reg, c)
  {
  }

  lemma SliceOfPage(svc: Service, reg: R.Registry, p: Page)
    requires PageOk(svc, reg, p)
    ensures p.matched == |Matching(svc.report, p.query)| && (p.hasMore <==> p.end < |Matching(svc.report, p.query)|)
  {
  }

  lemma Unstored(svc: Service, reg: R.Registry, d: Delivery, c: Checked, turnId: string)
    requires turnId in d.pages || (c.continues && c.query !in d.progress)
    ensures
      var p := PrepareChecked(svc, reg, d, c, turnId);
      && p.reg == reg && p.delivery == d && !p.stored
      && p.outcome ==
           (if turnId !in d.pages then Err("comment_batch_not_started")
            else if d.pages[turnId].query != c.query then Err("comment_batch_turn_limit")
            else Ok(ReceiptOf(svc.sessionId, turnId, d.pages[turnId])))
  {
  }

  /**
    After any run, a call in order is answered as its strings say: "start" shows the comments that the
    filter names from the first one on, "continue" those after the progress of this post and filter. A
    second call in one turn gets the first one's receipt, or is refused when it asks for something else.
  */
  lemma CallIsAnswered(svc: Service, binding: R.Binding, nonce: string, steps: seq<D.Step>, args: BatchArgs, turnId: string,
                       postId: string)
    requires svc.sessionId != ""
    requires Answerable(svc, D.Reg(D.Run(D.Initial(nonce), svc, binding, steps)), args, turnId, postId)
    ensures
      var w := D.Run(D.Initial(nonce), svc, binding, steps);
      Answers(svc, w.delivery, args, turnId, postId, Prepare(svc, D.Reg(w), w.delivery, args, turnId))
  {
    hide Answers, Answerable, D.Run, DeliveryOk, StoreOk, RegistryOk;
    var w := D.Run(D.Initial(nonce), svc, binding, steps);
    D.ReachableInv(svc, binding, nonce, steps);
    D.RegistryIsOk(w, svc, binding);
    LiveHasScope(svc, D.Reg(w), args, turnId, postId);
    CheckedIsAnswered(svc, D.Reg(w), w.delivery, w.completed, args, turnId, postId);
  }

  lemma LiveHasScope(svc: Service, reg: R.Registry, args: BatchArgs, turnId: string, postId: string)
    requires Answerable(svc, reg, args, turnId, postId)
    ensures svc.sessionId in reg.scopes
  {
  }

  /** Every other call is refused and changes nothing, neither the deliveries nor the registry. */
  lemma CallIsRefused(svc: Service, binding: R.Binding, nonce: string, steps: seq<D.Step>, args: BatchArgs, turnId: string)
    requires svc.sessionId != ""
    requires forall postId :: !Answerable(svc, D.Reg(D.Run(D.Initial(nonce), svc, binding, steps)), args, turnId, postId)
    ensures
      var w := D.Run(D.Initial(nonce), svc, binding, steps);
      var p := Prepare(svc, D.Reg(w), w.delivery, args, turnId);
      p.outcome.Err? && !p.stored && p.delivery == w.delivery && p.reg == D.Reg(w)
  {
    hide Answerable, D.Run, D.Inv, RegistryOk, CheckBatch, PrepareChecked;
    var w := D.Run(D.Initial(nonce), svc, binding, steps);
    D.ReachableInv(svc, binding, nonce, steps);
    D.RegistryIsOk(w, svc, binding);
    D.ValidOfOk(D.Reg(w));
    if CheckBatch(svc, D.Reg(w), args, turnId).Ok? {
      CheckedIsAnswerable(svc, D.Reg(w), args, turnId);
    }
  }

  // ---- a row of calls ----

  /** A call in a turn of its own that is then completed and acknowledged; saves may fail. */
  datatype Ask = Ask(turnId: string, limit: Option<int>, write: Option<Dump>, written: Option<Dump>)

  ghost function After(w: D.World, svc: Service, binding: R.Binding, args: BatchArgs, ask: Ask): D.World
    requires svc.sessionId != ""
  {
    var read := D.Next(w, svc, binding, D.ReadBatch(args.(limit := ask.limit), ask.turnId, ask.write));
    var done := D.Next(read, svc, binding, D.CompleteTurn(ask.turnId));
    D.Next(done, svc, binding, D.Acknowledge(ask.turnId, ask.written))
  }

  /** What the reader sees of a row of calls, of which all but the first say "continue". */
  ghost function Displayed(w: D.World, svc: Service, binding: R.Binding, args: BatchArgs, asks: seq<Ask>): seq<Comment>
    requires svc.sessionId != ""
    decreases |asks|
  {
    if asks == [] then []
    else
      var w' := After(w, svc, binding, args, asks[0]);
      (if asks[0].turnId in w'.delivery.pages then w'.delivery.pages[asks[0].turnId].comments else [])
        + Displayed(w', svc, binding, args.(action := "continue"), asks[1..])
  }

  function TotalOf(asks: seq<Ask>): int {
    if asks == [] then 0 else LimitOf(asks[0].limit) + TotalOf(asks[1..])
  }

  ghost predicate NewAsks(svc: Service, w: D.World, args: BatchArgs, asks: seq<Ask>, postId: string) {
    && (forall a <- asks :: a.turnId !in w.delivery.pages
          && Answerable(svc, D.Reg(w), args.(limit := a.limit), a.turnId, postId))
    && (forall i, j | 0 <= i < j < |asks| :: asks[i].turnId != asks[j].turnId)
  }

  /** Where the next call starts: 0, or the progress of this post and filter. */
  ghost predicate StartsAt(d: Delivery, args: BatchArgs, postId: string, offset: nat) {
    if Strip(args.action) == "start" then offset == 0
    else exists q <- d.progress :: IsFor(q, postId, NameOf(args)) && offset == d.progress[q].end
  }

  lemma PrepareEffect(svc: Service, reg: R.Registry, d: Delivery, completed: set<string>, args: BatchArgs, turnId: string,
                      postId: string, offset: nat)
    requires RegistryOk(reg) && DeliveryOk(svc, reg, d, completed) && turnId !in d.pages
    requires Answerable(svc, reg, args, turnId, postId) && StartsAt(d, args, postId, offset)
    ensures
      var p := Prepare(svc, reg, d, args, turnId);
      && R.Grows(reg, p.reg) && p.reg.scopes == reg.scopes && p.stored
      && turnId in p.delivery.pages && ShowsFrom(svc, args, postId, p.delivery.pages[turnId], offset)
      && p.delivery == d.(pages := d.pages[turnId := p.delivery.pages[turnId]])
  {
    hide DeliveryOk, RegistryOk, CheckBatch, Answerable, Strip, PrepareChecked, Wanted;
    D.ValidOfOk(reg);
    AnswerableIsChecked(svc, reg, args, turnId, postId);
    CheckedIsAnswered(svc, reg, d, completed, args, turnId, postId);
    var c := CheckBatch(svc, reg, args, turnId).value;
    forall q, q' | IsFor(q, postId, NameOf(args)) && IsFor(q', postId, NameOf(args)) ensures q == q' {
      NamesDiffer(q.filter, q'.filter);
    }
    ActionOf(svc, reg, args, turnId, postId);
    CheckedOkOfAnswerable(svc, reg, args, turnId, postId, c);
    PrepareStores(svc, reg, d, completed, c, turnId);
  }

  lemma ReadEffect(w: D.World, svc: Service, binding: R.Binding, args: BatchArgs, turnId: string, write: Option<Dump>,
                   postId: string, offset: nat)
    requires D.Inv(w, svc, binding) && svc.sessionId != "" && turnId !in w.delivery.pages
    requires Answerable(svc, D.Reg(w), args, turnId, postId) && StartsAt(w.delivery, args, postId, offset)
    ensures
      var w' := D.Next(w, svc, binding, D.ReadBatch(args, turnId, write));
      && R.Grows(D.Reg(w), D.Reg(w')) && D.Reg(w').scopes == D.Reg(w).scopes && w'.completed == w.completed
      && turnId in w'.delivery.pages && ShowsFrom(svc, args, postId, w'.delivery.pages[turnId], offset)
      && w'.delivery == w.delivery.(pages := w.delivery.pages[turnId := w'.delivery.pages[turnId]])
  {
    hide DeliveryOk, RegistryOk, StoreOk, Answerable, ShowsFrom, Prepare, StartsAt, R.Grows, IsDump;
    D.RegistryIsOk(w, svc, binding);
    LiveHasScope(svc, D.Reg(w), args, turnId, postId);
    PrepareEffect(svc, D.Reg(w), w.delivery, w.completed, args, turnId, postId, offset);
  }

  lemma ActionOf(svc: Service, reg: R.Registry, args: BatchArgs, turnId: string, postId: string)
    requires Answerable(svc, reg, args, turnId, postId)
    ensures Strip(args.action) == "start" || Strip(args.action) == "continue"
    ensures !IsSynthetic(turnId)
  {
  }

  lemma AfterEffect(w: D.World, svc: Service, binding: R.Binding, args: BatchArgs, ask: Ask, postId: string, offset: nat)
    requires D.Inv(w, svc, binding) && svc.sessionId != "" && ask.turnId !in w.delivery.pages
    requires Answerable(svc, D.Reg(w), args.(limit := ask.limit), ask.turnId, postId)
    requires StartsAt(w.delivery, args, postId, offset)
    ensures
      var w', all := After(w, svc, binding, args, ask), Wanted(svc.report, postId, NameOf(args));
      var end := Min(offset + LimitOf(ask.limit), |all|);
      && D.Inv(w', svc, binding)
      && R.Grows(D.Reg(w), D.Reg(w')) && D.Reg(w').scopes == D.Reg(w).scopes
      && w'.delivery.pages.Keys == w.delivery.pages.Keys + {ask.turnId}
      && offset <= end && w'.delivery.pages[ask.turnId].comments == all[offset..end]
      && StartsAt(w'.delivery, args.(action := "continue"), postId, end)
  {
    hide D.Inv, Answerable, IsDump, Strip, Prepare, Wanted;
    var call := args.(limit := ask.limit);
    ActionOf(svc, D.Reg(w), call, ask.turnId, postId);
    ReadEffect(w, svc, binding, call, ask.turnId, ask.write, postId, offset);
    var read := D.Next(w, svc, binding, D.ReadBatch(call, ask.turnId, ask.write));
    var done := D.Next(read, svc, binding, D.CompleteTurn(ask.turnId));
    D.NextKeepsInv(w, svc, binding, D.ReadBatch(call, ask.turnId, ask.write));
    D.NextKeepsInv(read, svc, binding, D.CompleteTurn(ask.turnId));
    D.NextKeepsInv(done, svc, binding, D.Acknowledge(ask.turnId, ask.written));
    var page := read.delivery.pages[ask.turnId];
    var w' := After(w, svc, binding, args, ask);
    assert w'.delivery == Acknowledged(done.delivery, ask.turnId);
    assert page.query in w'.delivery.progress && w'.delivery.progress[page.query].end == page.end;
    assert Strip("continue") == "continue" by {
      StripKeeps("continue");
    }
  }

  lemma LaterAsksAreNew(svc: Service, w: D.World, w': D.World, args: BatchArgs, asks: seq<Ask>, postId: string)
    requires asks != [] && NewAsks(svc, w, args, asks, postId)
    requires R.Grows(D.Reg(w), D.Reg(w')) && D.Reg(w').scopes == D.Reg(w).scopes
    requires w'.delivery.pages.Keys == w.delivery.pages.Keys + {asks[0].turnId}
    ensures NewAsks(svc, w', args.(action := "continue"), asks[1..], postId)
  {
    hide Strip;
    assert Strip("continue") == "continue" by {
      StripKeeps("continue");
    }
    forall a | a in asks[1..]
      ensures a.turnId !in w'.delivery.pages
      ensures Answerable(svc, D.Reg(w'), args.(action := "continue", limit := a.limit), a.turnId, postId)
    {
      var i :| 0 <= i < |asks[1..]| && asks[1..][i] == a;
      assert asks[i + 1] == a && a in asks;
      assert Answerable(svc, D.Reg(w), args.(limit := a.limit), a.turnId, postId);
    }
  }

  lemma {:induction false} CallsJoin(w: D.World, svc: Service, binding: R.Binding, args: BatchArgs, asks: seq<Ask>, postId: string,
                                     offset: nat)
    requires D.Inv(w, svc, binding) && svc.sessionId != "" && NewAsks(svc, w, args, asks, postId)
    requires StartsAt(w.delivery, args, postId, offset) && offset <= |Wanted(svc.report, postId, NameOf(args))|
    ensures
      var all := Wanted(svc.report, postId, NameOf(args));
      && 0 <= TotalOf(asks)
      && Displayed(w, svc, binding, args, asks) == all[offset..Min(offset + TotalOf(asks), |all|)]
    decreases |asks|
  {
    hide D.Inv, After, StartsAt, Strip, Wanted, Answerable, NewAsks;
    if asks != [] {
      var all := Wanted(svc.report, postId, NameOf(args));
      var limit := LimitOf(asks[0].limit);
      FirstIsNew(svc, w, args, asks, postId);
      AfterEffect(w, svc, binding, args, asks[0], postId, offset);
      var w', end := After(w, svc, binding, args, asks[0]), Min(offset + limit, |all|);
      LaterAsksAreNew(svc, w, w', args, asks, postId);
      CallsJoin(w', svc, binding, args.(action := "continue"), asks[1..], postId, end);
      SlicesJoin(all, offset, limit, TotalOf(asks[1..]));
    }
  }

  lemma FirstIsNew(svc: Service, w: D.World, args: BatchArgs, asks: seq<Ask>, postId: string)
    requires asks != [] && NewAsks(svc, w, args, asks, postId)
    ensures asks[0].turnId !in w.delivery.pages
    ensures Answerable(svc, D.Reg(w), args.(limit := asks[0].limit), asks[0].turnId, postId)
    ensures 1 <= LimitOf(asks[0].limit)
  {
    assert asks[0] in asks;
  }

  /**
    After any run, a row of calls for a post, the first with "start", shows exactly the comments that
    the filter names, each once and in the frozen order, as soon as the limits allow for all of them.
  */
  lemma CallsShowAll(svc: Service, binding: R.Binding, nonce: string, steps: seq<D.Step>, args: BatchArgs, asks: seq<Ask>,
                     postId: string)
    requires svc.sessionId != "" && Strip(args.action) == "start"
    requires NewAsks(svc, D.Run(D.Initial(nonce), svc, binding, steps), args, asks, postId)
    ensures
      var all := Wanted(svc.report, postId, NameOf(args));
      && 0 <= TotalOf(asks)
      && Displayed(D.Run(D.Initial(nonce), svc, binding, steps), svc, binding, args, asks) == all[..Min(TotalOf(asks), |all|)]
  {
    hide D.Run, D.Inv, NewAsks, Wanted, Displayed, Strip;
    D.ReachableInv(svc, binding, nonce, steps);
    CallsJoin(D.Run(D.Initial(nonce), svc, binding, steps), svc, binding, args, asks, postId, 0);
  }
}
