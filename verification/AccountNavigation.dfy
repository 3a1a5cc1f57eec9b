/**
  Navigation over accounts (`account_activity_service.py`): accounts, comment targets, occurrences and
  parent posts that a tool showed, and what the tools that read them answer.
*/
module AccountNavigation {
  import opened Wrappers
  import opened AccountActivityRefs

  /** An occurrence as the repository stores it; an unresolved account is empty. */
  datatype Stored = Stored(account: string, isComment: bool, task: string, contentKey: string, parentAuthor: string)

  /**
    What one revision fixes: the accounts, the occurrences by reference, the author of the post occurrence
    of every (task, content key), the tasks of the corpus, and those of the report catalogue.
  */
  datatype View = View(accounts: set<string>, occurrences: map<string, Stored>, postAuthors: map<(string, string), string>,
                       tasks: set<string>, catalog: set<string>)

  /** The content of every revision; a revision is a digest of its content. */
  type Corpora = string -> View

  /** What a corpus guarantees: authors are accounts, and a comment agrees with its post occurrence on the author. */
  ghost predicate WellFormed(v: View) {
    && "" !in v.accounts
    && forall o <- v.occurrences :: StoredOk(v, v.occurrences[o])
  }

  predicate StoredOk(v: View, x: Stored) {
    && x.task in v.tasks
    && (x.account != "" ==> x.account in v.accounts)
    && (x.isComment ==>
          && (x.parentAuthor != "" ==> x.parentAuthor in v.accounts)
          && (x.task, x.contentKey) in v.postAuthors && v.postAuthors[(x.task, x.contentKey)] == x.parentAuthor)
  }

  ghost predicate AllWellFormed(corpora: Corpora) {
    forall revision :: WellFormed(corpora(revision))
  }

  /** The account commented, on a post of the target: the overview's distribution has an entry. */
  predicate IsTarget(v: View, account: string, target: string) {
    target != "" && exists o | o in v.occurrences ::
      v.occurrences[o].isComment && v.occurrences[o].account == account && v.occurrences[o].parentAuthor == target
  }

  predicate Belongs(v: View, account: string, occurrence: string) {
    account in v.accounts && occurrence in v.occurrences && v.occurrences[occurrence].account == account
  }

  const OVERVIEW := Origin("get_account_overview", "comment_target_distribution")
  const PARENT_POST := Origin("read_account_occurrence", "parent_post_reference")
  const ALLOWED: set<Origin> := {Origin("list_account_occurrences", "preview"), Origin("list_post_risk_comments", "preview"),
                                 Origin("read_evidence", "comment_evidence")}

  /** Something that a tool shows of the current corpus revision. */
  datatype Showing =
    | AccountCard(account: string, origin: Origin)
    | TargetCard(account: string, target: string)
    | OccurrenceCard(account: string, occurrence: string, origin: Origin)
    | ParentPostOf(account: string, occurrence: string)
    | ReportCard(task: string)

  /** What the tools take from the corpus before they show it. */
  predicate MayShow(v: View, s: Showing) {
    match s
    case AccountCard(a, _) => a in v.accounts
    case TargetCard(a, t) => a in v.accounts && IsTarget(v, a, t)
    case OccurrenceCard(a, o, origin) => Belongs(v, a, o) && origin in ALLOWED
    case ParentPostOf(a, o) => Belongs(v, a, o) && v.occurrences[o].isComment
    case ReportCard(t) => t in v.catalog
  }

  function StepOf(sessionId: string, revision: string, s: Showing): Step {
    match s
    case AccountCard(a, origin) => ExposeObject(sessionId, Account, a, None, revision, origin)
    case TargetCard(a, t) => ExposeObject(sessionId, CommentTarget, t, Some(a), revision, OVERVIEW)
    case OccurrenceCard(a, o, origin) => ExposeObject(sessionId, Occurrence, o, Some(a), revision, origin)
    case ParentPostOf(a, o) => ExposeObject(sessionId, Post, o, Some(a), revision, PARENT_POST)
    case ReportCard(t) =>
      ExposeObject(sessionId, Report, t, None, revision, Origin("list_authorized_reports", "authorized_report"))
  }

  datatype ServiceStep =
    | Show(sessionId: string, revision: string, showing: Showing)
    | Other(step: Step)

  function NextShown(corpora: Corpora, reg: Registry, step: ServiceStep): Registry {
    match step
    case Show(sessionId, revision, s) =>
      if MayShow(corpora(revision), s) then Next(reg, StepOf(sessionId, revision, s)) else reg
    case Other(other) => if other.ExposeObject? then reg else Next(reg, other)
  }

  function RunShown(corpora: Corpora, reg: Registry, steps: seq<ServiceStep>): Registry
    decreases |steps|
  {
    if steps == [] then reg else RunShown(corpora, NextShown(corpora, reg, steps[0]), steps[1..])
  }

  ghost predicate Proper(corpora: Corpora, r: Record) {
    var v := corpora(r.key.revision);
    match r.key.kind
    case Account => r.key.parentAccount == None && r.key.objectId in v.accounts
    case CommentTarget =>
      && r.key.parentAccount.Some? && r.key.parentAccount.value in v.accounts
      && IsTarget(v, r.key.parentAccount.value, r.key.objectId) && r.first == OVERVIEW
    case Occurrence =>
      && r.key.parentAccount.Some? && Belongs(v, r.key.parentAccount.value, r.key.objectId)
      && forall o <- r.origins :: o in ALLOWED
    case Post =>
      && r.key.parentAccount.Some? && Belongs(v, r.key.parentAccount.value, r.key.objectId)
      && v.occurrences[r.key.objectId].isComment && r.first == PARENT_POST
    case Report => r.key.objectId in v.catalog
  }

  ghost predicate AllProper(corpora: Corpora, reg: Registry) {
    forall t <- reg.records :: Proper(corpora, reg.records[t])
  }

  /** What a showing publishes is proper, as a new record and as a further origin of an old one. */
  lemma ShownIsProper(corpora: Corpora, scope: Scope, revision: string, s: Showing, r: Record)
    requires MayShow(corpora(revision), s)
    requires
      var step := StepOf(scope.sessionId, revision, s);
      r.key == KeyFor(scope, step.kind, step.objectId, step.parentAccount, revision)
    ensures
      var step := StepOf(scope.sessionId, revision, s);
      && (r.first == step.origin && r.origins == [step.origin] ==> Proper(corpora, r))
      && (Proper(corpora, r) ==> Proper(corpora, r.(origins := r.origins + [step.origin])))
  {
    hide IsTarget;
  }

  /** What one exposure does to a record: nothing, one more origin, or its creation. */
  ghost predicate Touched(reg: Registry, reg': Registry, key: ObjectKey, origin: Origin, t: string)
    requires t in reg'.records
  {
    || (t in reg.records && reg'.records[t] == reg.records[t])
    || (t in reg.records && reg.records[t].key == key && reg'.records[t] == reg.records[t].(origins := reg.records[t].origins + [origin]))
    || (t !in reg.records && reg'.records[t] == Record(t, key, origin, [origin]))
  }

  lemma ExposeTouches(reg: Registry, key: ObjectKey, origin: Origin)
    requires Inv(reg)
    ensures forall t <- Expose(reg, key, origin).0.records :: Touched(reg, Expose(reg, key, origin).0, key, origin, t)
  {
    IndexLeadsToRecord(reg, key);
    NewTokenIsNew(reg, Prefix(key.kind));
  }

  lemma ShowKeepsProper(corpora: Corpora, reg: Registry, sessionId: string, revision: string, s: Showing)
    requires Inv(reg) && AllProper(corpora, reg) && MayShow(corpora(revision), s)
    ensures AllProper(corpora, Next(reg, StepOf(sessionId, revision, s)))
  {
    hide Inv, MayShow, Proper, Touched, Expose;
    var step := StepOf(sessionId, revision, s);
    if sessionId in reg.scopes {
      ScopeIsItsSessions(reg, sessionId);
      var scope := reg.scopes[sessionId];
      var key := KeyFor(scope, step.kind, step.objectId, step.parentAccount, revision);
      var reg' := Next(reg, step);
      ExposeTouches(reg, key, step.origin);
      forall t | t in reg'.records ensures Proper(corpora, reg'.records[t]) {
        TouchedIsProper(corpora, reg, reg', scope, revision, s, t);
      }
    }
  }

  lemma TouchedIsProper(corpora: Corpora, reg: Registry, reg': Registry, scope: Scope, revision: string, s: Showing, t: string)
    requires t in reg'.records && AllProper(corpora, reg) && MayShow(corpora(revision), s)
    requires
      var step := StepOf(scope.sessionId, revision, s);
      Touched(reg, reg', KeyFor(scope, step.kind, step.objectId, step.parentAccount, revision), step.origin, t)
    ensures Proper(corpora, reg'.records[t])
  {
    hide MayShow, Proper, StepOf;
    if t in reg.records {
      assert Proper(corpora, reg.records[t]);
      if reg'.records[t] != reg.records[t] {
        ShownIsProper(corpora, scope, revision, s, reg.records[t]);
      }
    } else {
      ShownIsProper(corpora, scope, revision, s, reg'.records[t]);
    }
  }

  lemma OtherKeepsProper(corpora: Corpora, reg: Registry, step: Step)
    requires AllProper(corpora, reg) && !step.ExposeObject?
    ensures AllProper(corpora, Next(reg, step))
  {
    hide Proper;
  }

  lemma {:induction false} RunKeepsProper(corpora: Corpora, reg: Registry, steps: seq<ServiceStep>)
    requires Inv(reg) && AllProper(corpora, reg)
    ensures Inv(RunShown(corpora, reg, steps)) && AllProper(corpora, RunShown(corpora, reg, steps))
    ensures Grows(reg, RunShown(corpora, reg, steps))
    decreases |steps|
  {
    hide Inv, AllProper, Grows, Next;
    GrowsFromItself(reg);
    if steps != [] {
      var reg1 := NextShown(corpora, reg, steps[0]);
      match steps[0] {
        case Show(sessionId, revision, s) =>
          if MayShow(corpora(revision), s) {
            ShowKeepsProper(corpora, reg, sessionId, revision, s);
            NextKeepsInv(reg, StepOf(sessionId, revision, s));
          }
        case Other(other) =>
          if !other.ExposeObject? {
            OtherKeepsProper(corpora, reg, other);
            NextKeepsInv(reg, other);
          }
      }
      RunKeepsProper(corpora, reg1, steps[1..]);
      GrowsTransitive(reg, reg1, RunShown(corpora, reg, steps));
    }
  }

  // ---- the consuming tools ----

  /** The lookup of `display_name`; an unresolved account is looked up as "None", which no account is called. */
  predicate HasName(v: View, account: string) {
    account in v.accounts
  }

  /** `overview` looks up the names of all targets and the cards of all tasks of the account. */
  predicate OverviewReads(v: View, account: string) {
    && HasName(v, account)
    && (forall o | o in v.occurrences && v.occurrences[o].account == account :: v.occurrences[o].task in v.tasks)
    && (forall o | o in v.occurrences && v.occurrences[o].account == account && v.occurrences[o].isComment ::
          v.occurrences[o].parentAuthor != "" ==> HasName(v, v.occurrences[o].parentAuthor))
  }

  /** `_get_account_overview`. */
  function ReadOverview(corpora: Corpora, reg: Registry, sessionId: string, revision: string, token: string): Result<string> {
    var r := Resolve(reg, sessionId, token, Account, revision, None, None);
    if r.Err? then Err(r.code)
    else if !OverviewReads(corpora(revision), r.value.key.objectId) then Err("unknown_account")
    else Ok(r.value.key.objectId)
  }

  /** The lookups of `occurrence_preview`: the card of the task, and for a comment the name of the post's author. */
  function Preview(v: View, x: Stored): Result<Stored> {
    if x.task !in v.tasks then Err("cross_scope")
    else if x.isComment && !HasName(v, x.parentAuthor) then Err("unknown_account")
    else Ok(x)
  }

  /** Those of `occurrence_detail`: for a post also the name of its author. */
  function Detail(v: View, x: Stored): Result<Stored> {
    if Preview(v, x).Ok? && !x.isComment && !HasName(v, x.account) then Err("unknown_account") else Preview(v, x)
  }

  /** The author of a comment's post is a resolved account. */
  predicate AuthorKnown(x: Stored) {
    x.isComment ==> x.parentAuthor != ""
  }

  /** The comment-target filter of `_list_account_occurrences`, for an account and a target reference. */
  function TargetFor(corpora: Corpora, reg: Registry, sessionId: string, revision: string, account: string, token: string): Result<string> {
    var r := Resolve(reg, sessionId, token, CommentTarget, revision, Some("get_account_overview"), Some("comment_target_distribution"));
    if r.Err? then Err(r.code)
    else if r.value.key.parentAccount != Some(account) then Err("wrong_parent_ref")
    else if r.value.key.objectId !in corpora(revision).accounts then Err("unknown_account")
    else Ok(r.value.key.objectId)
  }

  /** `occurrence` of the repository. */
  function StoredOf(v: View, account: string, occurrence: string): Result<Stored> {
    if account !in v.accounts then Err("unknown_account")
    else if occurrence !in v.occurrences then Err("unknown_occurrence")
    else if v.occurrences[occurrence].account != account then Err("wrong_parent_ref")
    else Ok(v.occurrences[occurrence])
  }

  /** `_read_account_occurrence`. */
  function ReadOccurrence(corpora: Corpora, reg: Registry, sessionId: string, revision: string, token: string): Result<Stored> {
    var r := Resolve(reg, sessionId, token, Occurrence, revision, None, None);
    if r.Err? then Err(r.code)
    else if !(exists o | o in r.value.origins :: o in ALLOWED) || r.value.first !in ALLOWED then Err("wrong_ref_source")
    else if r.value.key.parentAccount.None? then Err("wrong_parent_ref")
    else
      var x := StoredOf(corpora(revision), r.value.key.parentAccount.value, r.value.key.objectId);
      if x.Err? then x else Detail(corpora(revision), x.value)
  }

  /** An authorized report: its task and its posts. */
  datatype ReportPosts = ReportPosts(task: string, posts: set<string>)

  function OfTask(reports: seq<ReportPosts>, task: string): seq<ReportPosts> {
    if reports == [] then []
    else (if reports[0].task == task then [reports[0]] else []) + OfTask(reports[1..], task)
  }

  /** The start of the service refuses authorized reports that share a task. */
  ghost predicate DistinctTasks(reports: seq<ReportPosts>) {
    forall i, j | 0 <= i < j < |reports| :: reports[i].task != reports[j].task
  }

  /** `account_post_detail`: the author of the parent post, nothing when no authorized report has it, or a refusal. */
  function PostDetail(v: View, x: Stored, reports: seq<ReportPosts>): Result<Option<string>> {
    var matching := OfTask(reports, x.task);
    if !x.isComment then Err("wrong_parent_ref")
    else if |matching| > 1 then Err("ambiguous_post_source")
    else if matching == [] || ("post:" + x.contentKey) !in matching[0].posts then Ok(None)
    else if (x.task, x.contentKey) !in v.postAuthors then Err("missing_parent_post_occurrence")
    else if v.postAuthors[(x.task, x.contentKey)] != x.parentAuthor then Err("wrong_parent_ref")
    else Ok(Some(x.parentAuthor))
  }

  /** `_read_account_post`. */
  function ReadPost(corpora: Corpora, reg: Registry, reports: seq<ReportPosts>, sessionId: string, revision: string,
                    token: string): Result<Option<string>>
  {
    var r := Resolve(reg, sessionId, token, Post, revision, Some("read_account_occurrence"), Some("parent_post_reference"));
    if r.Err? then Err(r.code)
    else if r.value.key.parentAccount.None? then Err("wrong_parent_ref")
    else
      var x := StoredOf(corpora(revision), r.value.key.parentAccount.value, r.value.key.objectId);
      if x.Err? then Err(x.code) else PostDetail(corpora(revision), x.value, reports)
  }

  /** One reference of `_select_reports`. */
  function ReadReportRef(corpora: Corpora, reg: Registry, sessionId: string, revision: string, token: string): Result<string> {
    var r := Resolve(reg, sessionId, token, Report, revision, None, None);
    if r.Err? then Err(r.code)
    else if r.value.key.objectId !in corpora(revision).catalog then Err("report_not_authorized")
    else Ok(r.value.key.objectId)
  }

  /**
    Resolving for the kind alone already decides what the consuming tool answers: it accepts, but for the
    comments under posts of unknown authors, which the reader of occurrences refuses.
  */
  ghost predicate Answered(corpora: Corpora, reg: Registry, reports: seq<ReportPosts>, sessionId: string, token: string,
                           kind: Kind, revision: string)
  {
    var r, v := Resolve(reg, sessionId, token, kind, revision, None, None), corpora(revision);
    r.Ok? &&
    var id, parent := r.value.key.objectId, r.value.key.parentAccount;
    match kind
    case Account => ReadOverview(corpora, reg, sessionId, revision, token) == Ok(id)
    case CommentTarget =>
      parent.Some? && TargetFor(corpora, reg, sessionId, revision, parent.value, token) == Ok(id)
    case Occurrence =>
      && parent.Some? && id in v.occurrences && v.occurrences[id].account == parent.value
      && ReadOccurrence(corpora, reg, sessionId, revision, token)
           == (if AuthorKnown(v.occurrences[id]) then Ok(v.occurrences[id]) else Err("unknown_account"))
    case Post =>
      && parent.Some? && id in v.occurrences && v.occurrences[id].account == parent.value
      && ReadPost(corpora, reg, reports, sessionId, revision, token).Ok?
      && (HasPost(reports, v.occurrences[id]) ==>
            ReadPost(corpora, reg, reports, sessionId, revision, token) == Ok(Some(v.occurrences[id].parentAuthor)))
    case Report => ReadReportRef(corpora, reg, sessionId, revision, token) == Ok(id)
  }

  /** An authorized report has the post of the occurrence. */
  predicate HasPost(reports: seq<ReportPosts>, x: Stored) {
    exists r | r in reports :: r.task == x.task && ("post:" + x.contentKey) in r.posts
  }

  lemma {:induction false} OneOfTask(reports: seq<ReportPosts>, task: string)
    requires DistinctTasks(reports)
    ensures |OfTask(reports, task)| <= 1
    ensures forall r :: r in OfTask(reports, task) <==> r in reports && r.task == task
  {
    if reports != [] {
      assert DistinctTasks(reports[1..]);
      OneOfTask(reports[1..], task);
      assert reports == [reports[0]] + reports[1..];
      var rest := OfTask(reports[1..], task);
      assert |rest| > 0 ==> rest[0] in rest;
      forall r | r in reports[1..] ensures r.task != reports[0].task {
        var i :| 0 <= i < |reports[1..]| && reports[1..][i] == r;
        assert reports[i + 1] == r;
      }
    }
  }

  /** Over a well-formed corpus no comment's parent post is refused. */
  lemma DetailIsGiven(v: View, o: string, reports: seq<ReportPosts>)
    requires WellFormed(v) && DistinctTasks(reports) && o in v.occurrences && v.occurrences[o].isComment
    ensures
      var x := v.occurrences[o];
      PostDetail(v, x, reports) == if HasPost(reports, x) then Ok(Some(x.parentAuthor)) else Ok(None)
  {
    var x := v.occurrences[o];
    var matching := OfTask(reports, x.task);
    OneOfTask(reports, x.task);
    if matching != [] {
      assert matching[0] in matching;
    }
  }

  /** Every reference that resolves is answered so; the only refusal is that of a comment under a post of unknown author. */
  lemma ResolvedIsAnswered(corpora: Corpora, reg: Registry, reports: seq<ReportPosts>, sessionId: string, token: string,
                           kind: Kind, revision: string)
    requires Inv(reg) && AllProper(corpora, reg) && AllWellFormed(corpora) && DistinctTasks(reports)
    requires Resolve(reg, sessionId, token, kind, revision, None, None).Ok?
    ensures Answered(corpora, reg, reports, sessionId, token, kind, revision)
  {
    hide Answered, WellFormed, DistinctTasks, Valid;
    var r := reg.records[token];
    ResolvedRecord(corpora, reg, sessionId, token, kind, revision);
    match kind {
      case Post => PostIsAnswered(corpora, reg, reports, sessionId, token, revision);
      case Account => AccountIsAnswered(corpora, reg, reports, sessionId, token, revision);
      case CommentTarget => TargetIsAnswered(corpora, reg, reports, sessionId, token, revision);
      case Occurrence => OccurrenceIsAnswered(corpora, reg, reports, sessionId, token, revision);
      case Report => ReportIsAnswered(corpora, reg, reports, sessionId, token, revision);
    }
  }

  lemma ResolvedRecord(corpora: Corpora, reg: Registry, sessionId: string, token: string, kind: Kind, revision: string)
    requires Inv(reg) && AllProper(corpora, reg) && AllWellFormed(corpora)
    requires Resolve(reg, sessionId, token, kind, revision, None, None).Ok?
    ensures token in reg.records && Resolve(reg, sessionId, token, kind, revision, None, None) == Ok(reg.records[token])
    ensures IsProper(corpora, reg, token, kind, revision)
  {
    hide WellFormed, Proper;
    assert RecordOk(reg, token);
  }

  ghost predicate IsProper(corpora: Corpora, reg: Registry, token: string, kind: Kind, revision: string) {
    && token in reg.records && reg.records[token].key.kind == kind && reg.records[token].key.revision == revision
    && Proper(corpora, reg.records[token]) && WellFormed(corpora(revision))
    && reg.records[token].first in reg.records[token].origins
  }

  lemma PostIsAnswered(corpora: Corpora, reg: Registry, reports: seq<ReportPosts>, sessionId: string, token: string, revision: string)
    requires DistinctTasks(reports) && IsProper(corpora, reg, token, Post, revision)
    requires Resolve(reg, sessionId, token, Post, revision, None, None) == Ok(reg.records[token])
    ensures Answered(corpora, reg, reports, sessionId, token, Post, revision)
  {
    hide OfTask, PostDetail, HasPost, DistinctTasks;
    DetailIsGiven(corpora(revision), reg.records[token].key.objectId, reports);
  }

  lemma AccountIsAnswered(corpora: Corpora, reg: Registry, reports: seq<ReportPosts>, sessionId: string, token: string, revision: string)
    requires IsProper(corpora, reg, token, Account, revision)
    requires Resolve(reg, sessionId, token, Account, revision, None, None) == Ok(reg.records[token])
    ensures Answered(corpora, reg, reports, sessionId, token, Account, revision)
  {
    hide Resolve;
  }

  lemma TargetIsAnswered(corpora: Corpora, reg: Registry, reports: seq<ReportPosts>, sessionId: string, token: string, revision: string)
    requires IsProper(corpora, reg, token, CommentTarget, revision)
    requires Resolve(reg, sessionId, token, CommentTarget, revision, None, None) == Ok(reg.records[token])
    ensures Answered(corpora, reg, reports, sessionId, token, CommentTarget, revision)
  {
  }

  lemma OccurrenceIsAnswered(corpora: Corpora, reg: Registry, reports: seq<ReportPosts>, sessionId: string, token: string, revision: string)
    requires IsProper(corpora, reg, token, Occurrence, revision)
    requires Resolve(reg, sessionId, token, Occurrence, revision, None, None) == Ok(reg.records[token])
    ensures Answered(corpora, reg, reports, sessionId, token, Occurrence, revision)
  {
    hide Resolve;
  }

  lemma ReportIsAnswered(corpora: Corpora, reg: Registry, reports: seq<ReportPosts>, sessionId: string, token: string, revision: string)
    requires IsProper(corpora, reg, token, Report, revision)
    requires Resolve(reg, sessionId, token, Report, revision, None, None) == Ok(reg.records[token])
    ensures Answered(corpora, reg, reports, sessionId, token, Report, revision)
  {
    hide Resolve;
  }

  /**
    From an empty process, after any run over well-formed corpora and reports of distinct tasks: every
    account reference that resolves is answered by the tool that reads its kind, and refused only for a
    comment under a post of unknown author.
  */
  lemma ReachedIsAnswered(corpora: Corpora, nonce: string, reports: seq<ReportPosts>, steps: seq<ServiceStep>,
                          sessionId: string, token: string, kind: Kind, revision: string)
    requires AllWellFormed(corpora) && DistinctTasks(reports)
    requires Resolve(RunShown(corpora, EmptyRegistry(nonce), steps), sessionId, token, kind, revision, None, None).Ok?
    ensures Answered(corpora, RunShown(corpora, EmptyRegistry(nonce), steps), reports, sessionId, token, kind, revision)
  {
    hide AllWellFormed, DistinctTasks, RunShown, Answered, Resolve, Inv;
    EmptyIsInv(nonce);
    RunKeepsProper(corpora, EmptyRegistry(nonce), steps);
    ResolvedIsAnswered(corpora, RunShown(corpora, EmptyRegistry(nonce), steps), reports, sessionId, token, kind, revision);
  }

  /** An occurrence reference can be read exactly if it is a post's, or the author of its comment's post is known. */
  lemma OccurrenceReadIff(corpora: Corpora, reg: Registry, sessionId: string, token: string, revision: string)
    requires Inv(reg) && AllProper(corpora, reg) && AllWellFormed(corpora)
    requires Resolve(reg, sessionId, token, Occurrence, revision, None, None).Ok?
    ensures
      var id, v := Resolve(reg, sessionId, token, Occurrence, revision, None, None).value.key.objectId, corpora(revision);
      && id in v.occurrences
      && (ReadOccurrence(corpora, reg, sessionId, revision, token).Ok? <==> AuthorKnown(v.occurrences[id]))
  {
    hide Inv, AllProper, AllWellFormed, Resolve, ReadOccurrence;
    ResolvedIsAnswered(corpora, reg, [], sessionId, token, Occurrence, revision);
  }

  /**
    Whatever the service does in between, a reference it showed is answered by the tool that reads its
    kind, for the same object and account, while the session keeps its generation and the corpus its revision.
  */
  lemma AnsweredForever(corpora: Corpora, reg: Registry, reports: seq<ReportPosts>, steps: seq<ServiceStep>, sessionId: string,
                        token: string, kind: Kind, revision: string)
    requires Inv(reg) && AllProper(corpora, reg) && AllWellFormed(corpora) && DistinctTasks(reports)
    requires Resolve(reg, sessionId, token, kind, revision, None, None).Ok?
    requires
      var reg' := RunShown(corpora, reg, steps);
      && sessionId in reg.scopes && sessionId in reg'.scopes
      && reg'.scopes[sessionId].generation == reg.scopes[sessionId].generation
    ensures
      var was, now := Resolve(reg, sessionId, token, kind, revision, None, None),
                      Resolve(RunShown(corpora, reg, steps), sessionId, token, kind, revision, None, None);
      && now.Ok? && SameReference(was.value, now.value)
      && Answered(corpora, RunShown(corpora, reg, steps), reports, sessionId, token, kind, revision)
  {
    hide RunShown, Inv, AllProper, Answered, AllWellFormed, DistinctTasks;
    RunKeepsProper(corpora, reg, steps);
    ResolvedIsAnswered(corpora, RunShown(corpora, reg, steps), reports, sessionId, token, kind, revision);
  }

  /** A target of one account is refused as a filter for another. */
  lemma TargetOnlyForItsAccount(corpora: Corpora, reg: Registry, sessionId: string, revision: string, account: string, other: string, token: string)
    requires TargetFor(corpora, reg, sessionId, revision, account, token).Ok? && other != account
    ensures TargetFor(corpora, reg, sessionId, revision, other, token) == Err("wrong_parent_ref")
  {
  }
}
