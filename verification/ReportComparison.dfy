/**
  Choosing authorized reports and comparing their accounts (`_report_catalog`, `_select_reports`,
  `_compare_authorized_report_accounts`).
*/
module ReportComparison {
  import opened Wrappers
  import opened Arguments
  import opened Sorting
  import opened ReportAccountStatistics
  import A = AccountActivityRefs
  import P = AccountPaging

  // ---- the catalog ----

  datatype ReportSource = ReportSource(templateKind: string, taskId: string, title: string, hashes: string)

  datatype Spec = Spec(taskId: string, title: string, position: nat, isCurrent: bool, hashes: string)

  function Unified(reports: seq<ReportSource>): seq<ReportSource> {
    if reports == [] then []
    else
      var last := reports[|reports| - 1];
      Unified(reports[..|reports| - 1]) + (if last.templateKind == "unified_audit" then [last] else [])
  }

  ghost predicate DistinctTasks(reports: seq<ReportSource>) {
    forall i, j | 0 <= i < j < |reports| :: reports[i].taskId != reports[j].taskId
  }

  /** Positions count from one, in the order of the authorized reports, and tasks are distinct. */
  ghost predicate IsCatalog(specs: seq<Spec>, reports: seq<ReportSource>, current: string) {
    && |specs| == |reports|
    && forall i | 0 <= i < |specs| ::
         specs[i] == Spec(reports[i].taskId, reports[i].title, i + 1, reports[i].taskId == current, reports[i].hashes)
  }

  lemma {:induction false} UnifiedPrefix(reports: seq<ReportSource>, i: nat)
    requires i <= |reports|
    ensures Unified(reports[..i]) <= Unified(reports)
    decreases |reports|
  {
    if i < |reports| {
      assert reports[..|reports| - 1][..i] == reports[..i];
      UnifiedPrefix(reports[..|reports| - 1], i);
    } else {
      assert reports[..i] == reports;
    }
  }

  /** `_report_catalog`: refused exactly when two unified reports share a source investigation. */
  method Catalog(reports: seq<ReportSource>, current: string) returns (specs: Result<seq<Spec>>)
    ensures specs.Ok? <==> DistinctTasks(Unified(reports))
    ensures specs.Ok? ==> IsCatalog(specs.value, Unified(reports), current)
    ensures specs.Err? ==> specs.code == "duplicate_authorized_report_task"
  {
    hide IsCatalog, DistinctTasks, Unified;
    var collected: seq<Spec>, seen := [], {};
    NothingCollected(current);
    assert reports[..0] == [];
    for i := 0 to |reports|
      invariant IsCatalog(collected, Unified(reports[..i]), current)
      invariant DistinctTasks(Unified(reports[..i]))
      invariant seen == set s <- collected :: s.taskId
    {
      var report := reports[i];
      UnifiedStep(reports, i);
      if report.templateKind == "unified_audit" {
        if report.taskId in seen {
          SharedTask(collected, Unified(reports[..i]), report, current);
          UnifiedPrefix(reports, i + 1);
          PrefixIsDistinct(Unified(reports[..i + 1]), Unified(reports));
          return Err("duplicate_authorized_report_task");
        }
        OneMoreTask(collected, Unified(reports[..i]), report, current);
        seen := seen + {report.taskId};
        collected := collected + [Spec(report.taskId, report.title, |collected| + 1, report.taskId == current, report.hashes)];
      }
    }
    assert reports[..|reports|] == reports;
    return Ok(collected);
  }

  lemma NothingCollected(current: string)
    ensures IsCatalog([], Unified([]), current) && DistinctTasks(Unified([]))
  {
  }

  lemma UnifiedStep(reports: seq<ReportSource>, i: nat)
    requires i < |reports|
    ensures Unified(reports[..i + 1]) ==
      if reports[i].templateKind == "unified_audit" then Unified(reports[..i]) + [reports[i]] else Unified(reports[..i])
  {
    assert reports[..i + 1][..i] == reports[..i];
  }

  lemma PrefixIsDistinct(a: seq<ReportSource>, b: seq<ReportSource>)
    requires a <= b && !DistinctTasks(a)
    ensures !DistinctTasks(b)
  {
    var i, j :| 0 <= i < j < |a| && a[i].taskId == a[j].taskId;
    assert b[i] == a[i] && b[j] == a[j];
  }

  lemma SharedTask(collected: seq<Spec>, unified: seq<ReportSource>, report: ReportSource, current: string)
    requires IsCatalog(collected, unified, current) && exists s <- collected :: s.taskId == report.taskId
    ensures !DistinctTasks(unified + [report])
  {
    var j :| 0 <= j < |collected| && collected[j].taskId == report.taskId;
    assert (unified + [report])[j].taskId == (unified + [report])[|unified|].taskId;
  }

  lemma OneMoreTask(collected: seq<Spec>, unified: seq<ReportSource>, report: ReportSource, current: string)
    requires IsCatalog(collected, unified, current) && DistinctTasks(unified)
    requires forall s <- collected :: s.taskId != report.taskId
    ensures DistinctTasks(unified + [report])
    ensures IsCatalog(collected + [Spec(report.taskId, report.title, |collected| + 1, report.taskId == current, report.hashes)],
                      unified + [report], current)
  {
    forall j | 0 <= j < |unified| ensures unified[j].taskId != report.taskId {
      assert collected[j] in collected;
    }
  }

  // ---- the selection ----

  /** What a tool call sees of its session. */
  datatype Session = Session(refs: A.Registry, sessionId: string, revision: string)

  function FindTask(specs: seq<Spec>, taskId: string): (i: Option<nat>)
    ensures i.Some? ==> i.value < |specs| && specs[i.value].taskId == taskId
    ensures i.None? ==> forall s <- specs :: s.taskId != taskId
  {
    if specs == [] then None
    else
      var last := |specs| - 1;
      if specs[last].taskId == taskId then Some(last) else
        var i := FindTask(specs[..last], taskId);
        assert specs == specs[..last] + [specs[last]];
        i
  }

  /** The catalog place of the report that a reference stands for, if the session may use it. */
  function Choice(s: Session, specs: seq<Spec>, token: string): Result<nat> {
    var named := RequireString(token);
    var record := A.Resolve(s.refs, s.sessionId, token, A.Report, s.revision, None, None);
    if named.Err? then Err(named.code)
    else if record.Err? then Err(record.code)
    else
      var i := FindTask(specs, record.value.key.objectId);
      if i.None? then Err("report_not_authorized") else Ok(i.value)
  }

  ghost predicate Selectable(s: Session, specs: seq<Spec>, tokens: seq<string>) {
    && (forall t <- tokens :: Choice(s, specs, t).Ok?)
    && (forall i, j | 0 <= i < j < |tokens| :: Choice(s, specs, tokens[i]) != Choice(s, specs, tokens[j]))
  }

  ghost function Chosen(s: Session, specs: seq<Spec>, tokens: seq<string>): set<nat> {
    set t <- tokens | Choice(s, specs, t).Ok? :: Choice(s, specs, t).value
  }

  const Ascending: (nat, nat) -> bool := (a: nat, b: nat) => a <= b

  /** The chosen specs in catalog order. */
  ghost predicate IsSelection(selected: seq<Spec>, specs: seq<Spec>, chosen: set<nat>) {
    exists places: seq<nat> ::
      && Lists(places, chosen, Ascending) && |selected| == |places|
      && forall i | 0 <= i < |places| :: places[i] < |specs| && selected[i] == specs[places[i]]
  }

  lemma SelectionIsUnique(a: seq<Spec>, b: seq<Spec>, specs: seq<Spec>, chosen: set<nat>)
    requires IsSelection(a, specs, chosen) && IsSelection(b, specs, chosen)
    ensures a == b
  {
    var p: seq<nat> :| Lists(p, chosen, Ascending) && |a| == |p|
      && forall i | 0 <= i < |p| :: p[i] < |specs| && a[i] == specs[p[i]];
    var q: seq<nat> :| Lists(q, chosen, Ascending) && |b| == |q|
      && forall i | 0 <= i < |q| :: q[i] < |specs| && b[i] == specs[q[i]];
    ListingIsUnique(p, q, chosen, Ascending);
  }

  lemma ChoiceInRange(s: Session, specs: seq<Spec>, token: string)
    ensures Choice(s, specs, token).Ok? ==> Choice(s, specs, token).value < |specs|
  {
  }

  lemma AllChosen(s: Session, specs: seq<Spec>, tokens: seq<string>, chosen: seq<nat>)
    requires |chosen| == |tokens| && forall j | 0 <= j < |tokens| :: Choice(s, specs, tokens[j]) == Ok(chosen[j])
    ensures Elements(chosen) == Chosen(s, specs, tokens)
  {
    hide Choice;
    forall n | n in Chosen(s, specs, tokens) ensures n in chosen {
      var t :| t in tokens && Choice(s, specs, t) == Ok(n);
      var j :| 0 <= j < |tokens| && tokens[j] == t;
      assert chosen[j] == n;
    }
    forall n | n in chosen ensures n in Chosen(s, specs, tokens) {
      var j :| 0 <= j < |chosen| && chosen[j] == n;
      assert tokens[j] in tokens && Choice(s, specs, tokens[j]) == Ok(n);
    }
  }

  /**
    `_select_reports`: succeeds exactly for references of distinct authorized reports, and then lists
    those reports in catalog order.
  */
  method SelectReports(s: Session, specs: seq<Spec>, tokens: seq<string>) returns (selected: Result<seq<Spec>>)
    ensures selected.Ok? <==> Selectable(s, specs, tokens)
    ensures selected.Ok? ==> IsSelection(selected.value, specs, Chosen(s, specs, tokens))
  {
    hide Choice;
    var chosen: seq<nat> := [];
    for i := 0 to |tokens|
      invariant |chosen| == i
      invariant forall j | 0 <= j < i :: Choice(s, specs, tokens[j]) == Ok(chosen[j]) && chosen[j] < |specs|
      invariant NoDuplicates(chosen)
    {
      var choice := Choice(s, specs, tokens[i]);
      if choice.Err? {
        assert tokens[i] in tokens;
        return Err(choice.code);
      }
      if choice.value in chosen {
        var j :| 0 <= j < i && chosen[j] == choice.value;
        assert Choice(s, specs, tokens[j]) == Choice(s, specs, tokens[i]);
        return Err("invalid_arguments");
      }
      ChoiceInRange(s, specs, tokens[i]);
      chosen := chosen + [choice.value];
    }
    assert Selectable(s, specs, tokens);
    AllChosen(s, specs, tokens, chosen);
    var places := SortSet(Elements(chosen), Ascending);
    forall i | 0 <= i < |places| ensures places[i] < |specs| {
      assert places[i] in Elements(places) && places[i] in Elements(chosen) && places[i] in chosen;
      var j :| 0 <= j < |chosen| && chosen[j] == places[i];
    }
    selected := Ok(seq(|places|, i requires 0 <= i < |places| => specs[places[i]]));
  }

  ghost predicate Permuted(a: seq<string>, b: seq<string>) {
    multiset(a) == multiset(b)
  }

  lemma {:induction false} PermutedSelectable(s: Session, specs: seq<Spec>, a: seq<string>, b: seq<string>)
    requires Permuted(a, b) && Selectable(s, specs, a)
    ensures Selectable(s, specs, b) && Chosen(s, specs, a) == Chosen(s, specs, b)
  {
    forall t ensures t in a <==> t in b {
      assert t in a <==> multiset(a)[t] > 0;
      assert t in b <==> multiset(b)[t] > 0;
    }
    forall i, j | 0 <= i < j < |b| ensures Choice(s, specs, b[i]) != Choice(s, specs, b[j]) {
      assert b[i] in a && b[j] in a;
      var k :| 0 <= k < |a| && a[k] == b[i];
      var l :| 0 <= l < |a| && a[l] == b[j];
      if k == l {
        TwiceInOne(b, i, j);
        TwiceInOther(a, k);
      }
    }
  }

  lemma TwiceInOne(b: seq<string>, i: nat, j: nat)
    requires i < j < |b| && b[i] == b[j]
    ensures multiset(b)[b[i]] >= 2
  {
    assert b == b[..j] + [b[j]] + b[j + 1..];
    assert b[..j][i] == b[i];
  }

  /** A sequence in which one place is the only one for its value holds that value once. */
  lemma TwiceInOther(a: seq<string>, k: nat)
    requires k < |a|
    requires multiset(a)[a[k]] >= 2
    ensures exists l :: 0 <= l < |a| && l != k && a[l] == a[k]
  {
    assert a == a[..k] + [a[k]] + a[k + 1..];
    if a[k] in a[..k] {
      var l :| 0 <= l < k && a[..k][l] == a[k];
      assert a[l] == a[k];
    } else {
      assert a[k] in a[k + 1..];
      var l :| 0 <= l < |a| - k - 1 && a[k + 1..][l] == a[k];
      assert a[k + 1 + l] == a[k];
    }
  }

  /** Selecting reports does not depend on the order in which they are named. */
  lemma SelectionIgnoresOrder(s: Session, specs: seq<Spec>, a: seq<string>, b: seq<string>, x: seq<Spec>, y: seq<Spec>)
    requires Permuted(a, b)
    ensures Selectable(s, specs, a) <==> Selectable(s, specs, b)
    ensures (Selectable(s, specs, a) && IsSelection(x, specs, Chosen(s, specs, a))
             && IsSelection(y, specs, Chosen(s, specs, b))) ==> x == y
  {
    if Selectable(s, specs, a) {
      PermutedSelectable(s, specs, a, b);
      if IsSelection(x, specs, Chosen(s, specs, a)) && IsSelection(y, specs, Chosen(s, specs, b)) {
        SelectionIsUnique(x, y, specs, Chosen(s, specs, a));
      }
    } else if Selectable(s, specs, b) {
      PermutedSelectable(s, specs, b, a);
      assert false;
    }
  }

  // ---- the comparison ----

  datatype Role = AnyRole | Publisher | Commenter

  predicate Plays(c: Counter, role: Role) {
    match role
    case AnyRole => true
    case Publisher => c.posts > 0
    case Commenter => c.comments > 0
  }

  function Players(entries: Entries, role: Role): set<string> {
    set a | a in entries && Plays(entries[a], role)
  }

  /** `set.intersection` over the selected reports. */
  method Intersection(counts: map<string, Entries>, selected: seq<Spec>, role: Role) returns (common: set<string>)
    requires selected != [] && forall x <- selected :: x.taskId in counts
    ensures forall a :: a in common <==> forall x <- selected :: a in Players(counts[x.taskId], role)
  {
    assert selected[0] in selected;
    common := Players(counts[selected[0].taskId], role);
    for i := 1 to |selected|
      invariant forall a :: a in common <==> forall x <- selected[..i] :: a in Players(counts[x.taskId], role)
    {
      assert selected[i] in selected && selected[..i + 1] == selected[..i] + [selected[i]];
      common := common * Players(counts[selected[i].taskId], role);
    }
    assert selected[..|selected|] == selected;
  }

  /** In a report an account plays a role when it occurs in it that way at least once. */
  predicate Appears(activities: seq<Activity>, task: string, account: string, role: Role) {
    account != "" &&
    match role
    case AnyRole => CountOf(activities, task, PostAuthor, account) + CountOf(activities, task, CommentAuthor, account) > 0
    case Publisher => CountOf(activities, task, PostAuthor, account) > 0
    case Commenter => CountOf(activities, task, CommentAuthor, account) > 0
  }

  ghost predicate InAll(activities: seq<Activity>, selected: seq<Spec>, role: Role, account: string) {
    forall x <- selected :: Appears(activities, x.taskId, account, role)
  }

  datatype Comparison = Comparison(common: set<string>, publishers: set<string>, commenters: set<string>,
                                   matched: set<string>, ordered: seq<string>)

  function ByRole(c: Comparison, role: Role): set<string> {
    match role
    case AnyRole => c.common
    case Publisher => c.publishers
    case Commenter => c.commenters
  }

  /** The comparison is the set intersection of the selected reports, role by role, listed by name. */
  ghost predicate IsComparison(activities: seq<Activity>, selected: seq<Spec>, role: Role,
                               byName: (string, string) -> bool, c: Comparison)
  {
    && (forall a :: a in c.common <==> InAll(activities, selected, AnyRole, a))
    && (forall a :: a in c.publishers <==> InAll(activities, selected, Publisher, a))
    && (forall a :: a in c.commenters <==> InAll(activities, selected, Commenter, a))
    && c.matched == ByRole(c, role)
    && Lists(c.ordered, c.matched, byName)
  }

  lemma PlayersAppear(activities: seq<Activity>, task: string, entries: Entries, role: Role)
    requires IsCounts(activities, task, entries)
    ensures forall a :: a in Players(entries, role) <==> Appears(activities, task, a, role)
  {
    forall a ensures a in Players(entries, role) <==> Appears(activities, task, a, role) {
      assert a in entries <==> Active(activities, task, a);
    }
  }

  method CommonAccounts(activities: seq<Activity>, counts: map<string, Entries>, selected: seq<Spec>, role: Role)
    returns (common: set<string>)
    requires selected != [] && forall x <- selected :: x.taskId in counts && IsCounts(activities, x.taskId, counts[x.taskId])
    ensures forall a :: a in common <==> InAll(activities, selected, role, a)
  {
    common := Intersection(counts, selected, role);
    forall a ensures a in common <==> InAll(activities, selected, role, a) {
      forall x | x in selected
        ensures a in Players(counts[x.taskId], role) <==> Appears(activities, x.taskId, a, role)
      {
        PlayersAppear(activities, x.taskId, counts[x.taskId], role);
      }
    }
  }

  /** `_compare_authorized_report_accounts`, up to the page. */
  method Compare(activities: seq<Activity>, selected: seq<Spec>, role: Role, byName: (string, string) -> bool)
    returns (c: Comparison)
    requires selected != [] && TotalOrder(byName)
    ensures IsComparison(activities, selected, role, byName, c)
  {
    hide TotalOrder, IsCounts, Sorted;
    var counts, _ := CountAccounts(activities, set x <- selected :: x.taskId);
    var common := CommonAccounts(activities, counts, selected, AnyRole);
    var publishers := CommonAccounts(activities, counts, selected, Publisher);
    var commenters := CommonAccounts(activities, counts, selected, Commenter);
    var matched := if role == AnyRole then common else if role == Publisher then publishers else commenters;
    var ordered := SortSet(matched, byName);
    c := Comparison(common, publishers, commenters, matched, ordered);
  }

  lemma RolesLieWithinCommon(activities: seq<Activity>, selected: seq<Spec>, role: Role,
                             byName: (string, string) -> bool, c: Comparison)
    requires IsComparison(activities, selected, role, byName, c)
    ensures c.publishers <= c.common && c.commenters <= c.common && c.matched <= c.common
  {
    forall a | a in c.publishers + c.commenters ensures a in c.common {
      forall x | x in selected ensures Appears(activities, x.taskId, a, AnyRole) {
        if a in c.publishers {
          assert Appears(activities, x.taskId, a, Publisher);
        } else {
          assert Appears(activities, x.taskId, a, Commenter);
        }
      }
    }
  }

  lemma ComparisonIsUnique(activities: seq<Activity>, selected: seq<Spec>, role: Role,
                           byName: (string, string) -> bool, c: Comparison, d: Comparison)
    requires TotalOrder(byName)
    requires IsComparison(activities, selected, role, byName, c) && IsComparison(activities, selected, role, byName, d)
    ensures c == d
  {
    hide InAll, TotalOrder, Sorted;
    assert c.common == d.common && c.publishers == d.publishers && c.commenters == d.commenters;
    ListingIsUnique(c.ordered, d.ordered, c.matched, byName);
  }

  function RoleName(role: Role): string {
    match role
    case AnyRole => "any"
    case Publisher => "post_author"
    case Commenter => "comment_author"
  }

  /** The signature that a comparison's cursors carry: the tasks in catalog order and the role. */
  function QueryOf(selected: seq<Spec>, role: Role, revision: string): A.Query {
    var tasks := seq(|selected|, i requires 0 <= i < |selected| => selected[i].taskId);
    A.Query(A.OfReports(tasks, RoleName(role)), "compare_authorized_report_accounts", None, None, revision)
  }

  /**
    Naming the same reports in another order selects the same reports, finds the same accounts and
    asks the same query, so a cursor issued under one order continues under the other.
  */
  lemma ComparisonIgnoresOrder(s: Session, specs: seq<Spec>, activities: seq<Activity>, role: Role,
                               byName: (string, string) -> bool, a: seq<string>, b: seq<string>,
                               x: seq<Spec>, y: seq<Spec>, c: Comparison, d: Comparison,
                               limit: nat, cursor: Option<string>)
    requires TotalOrder(byName) && Permuted(a, b) && Selectable(s, specs, a)
    requires IsSelection(x, specs, Chosen(s, specs, a)) && IsSelection(y, specs, Chosen(s, specs, b))
    requires IsComparison(activities, x, role, byName, c) && IsComparison(activities, y, role, byName, d)
    ensures x == y && c == d
    ensures P.Page(s.refs, s.sessionId, QueryOf(x, role, s.revision), c.ordered, limit, cursor)
         == P.Page(s.refs, s.sessionId, QueryOf(y, role, s.revision), d.ordered, limit, cursor)
  {
    hide IsSelection, IsComparison, TotalOrder, Chosen, P.Page, Selectable;
    SelectionIgnoresOrder(s, specs, a, b, x, y);
    ComparisonIsUnique(activities, x, role, byName, c, d);
  }
}
