/** The counts of reports are counts of the corpus: what the statistics read of an occurrence, and what they then say. */
module CorpusActivities {
  import opened Wrappers
  import opened Sorting
  import C = AccountCorpus
  import L = CorpusLists
  import S = ReportAccountStatistics

  /** The printed reference of an account. */
  type Names = C.AccountRef -> string

  /** Different accounts have different references, and none is empty. */
  ghost predicate Faithful(nameOf: Names) {
    && (forall a :: nameOf(a) != "")
    && forall a, b :: nameOf(a) == nameOf(b) ==> a == b
  }

  function KindOf(kind: C.Kind): S.ActivityKind {
    match kind
    case PostAuthor => S.PostAuthor
    case CommentAuthor => S.CommentAuthor
  }

  function NameOf(account: Option<C.AccountRef>, nameOf: Names): string {
    if account.Some? then nameOf(account.value) else ""
  }

  function ActivityOf(o: C.Occurrence, nameOf: Names): S.Activity {
    S.Activity(o.taskId, KindOf(o.kind), NameOf(o.account, nameOf))
  }

  function Activities(occurrences: seq<C.Occurrence>, nameOf: Names): seq<S.Activity> {
    seq(|occurrences|, i requires 0 <= i < |occurrences| => ActivityOf(occurrences[i], nameOf))
  }

  /** The occurrences of an account in a role, in one report; no account stands for the unresolved ones. */
  function Matching(occurrences: seq<C.Occurrence>, task: string, kind: C.Kind, account: Option<C.AccountRef>): set<C.Occurrence> {
    set o <- occurrences | o.taskId == task && o.kind == kind && o.account == account
  }

  function InRole(occurrences: seq<C.Occurrence>, task: string, kind: C.Kind): set<C.Occurrence> {
    set o <- occurrences | o.taskId == task && o.kind == kind
  }

  lemma ActivityMatches(o: C.Occurrence, nameOf: Names, task: string, kind: C.Kind, account: Option<C.AccountRef>)
    requires Faithful(nameOf)
    ensures S.Is(ActivityOf(o, nameOf), task, KindOf(kind), NameOf(account, nameOf))
       <==> o.taskId == task && o.kind == kind && o.account == account
  {
  }

  /** Counting the activities of a corpus without repeated occurrences counts its occurrences. */
  lemma {:induction false} CountsAgree(occurrences: seq<C.Occurrence>, nameOf: Names, task: string, kind: C.Kind, account: Option<C.AccountRef>)
    requires Faithful(nameOf) && NoDuplicates(occurrences)
    ensures S.CountOf(Activities(occurrences, nameOf), task, KindOf(kind), NameOf(account, nameOf))
         == |Matching(occurrences, task, kind, account)|
    ensures S.CountAll(Activities(occurrences, nameOf), task, KindOf(kind)) == |InRole(occurrences, task, kind)|
    decreases |occurrences|
  {
    if occurrences == [] {
      assert Activities(occurrences, nameOf) == [];
    } else {
      var init, last := occurrences[..|occurrences| - 1], occurrences[|occurrences| - 1];
      assert NoDuplicates(init) && last !in init;
      hide NoDuplicates;
      CountsAgree(init, nameOf, task, kind, account);
      ActivityMatches(last, nameOf, task, kind, account);
      hide S.CountOf, S.CountAll, S.Is, Activities, Matching, InRole, Faithful;
      assert occurrences == init + [last];
      OneMoreActivity(init, last, nameOf);
      S.CountSnoc(Activities(init, nameOf), ActivityOf(last, nameOf), task, KindOf(kind), NameOf(account, nameOf));
      OneMoreMatching(init, last, task, kind, account);
      OneMoreInRole(init, last, task, kind);
    }
  }

  lemma OneMoreActivity(init: seq<C.Occurrence>, last: C.Occurrence, nameOf: Names)
    ensures Activities(init + [last], nameOf) == Activities(init, nameOf) + [ActivityOf(last, nameOf)]
  {
    hide ActivityOf;
    var s := init + [last];
    assert forall i | 0 <= i < |init| :: s[i] == init[i];
    assert s[|init|] == last;
  }

  lemma OneMoreMatching(init: seq<C.Occurrence>, last: C.Occurrence, task: string, kind: C.Kind, account: Option<C.AccountRef>)
    requires last !in init
    ensures |Matching(init + [last], task, kind, account)|
         == |Matching(init, task, kind, account)| + (if last.taskId == task && last.kind == kind && last.account == account then 1 else 0)
  {
    assert Matching(init + [last], task, kind, account)
        == Matching(init, task, kind, account) + (if last.taskId == task && last.kind == kind && last.account == account then {last} else {});
  }

  lemma OneMoreInRole(init: seq<C.Occurrence>, last: C.Occurrence, task: string, kind: C.Kind)
    requires last !in init
    ensures |InRole(init + [last], task, kind)|
         == |InRole(init, task, kind)| + (if last.taskId == task && last.kind == kind then 1 else 0)
  {
    assert InRole(init + [last], task, kind)
        == InRole(init, task, kind) + (if last.taskId == task && last.kind == kind then {last} else {});
  }

  /** The statistics over a built corpus count every post and every comment of the accepted rows once. */
  lemma BuiltCountsAgree(c: C.Corpus, tasks: seq<string>, jobs: map<string, C.Job>, le: C.Order, nameOf: Names,
                         task: string, kind: C.Kind, account: Option<C.AccountRef>)
    requires forall t <- tasks :: t in jobs
    requires C.IsBuilt(c, tasks, jobs, le) && C.Accepts(C.Entries(tasks, jobs)) && Faithful(nameOf)
    ensures
      var activities := Activities(c.occurrences, nameOf);
      && S.CountOf(activities, task, KindOf(kind), NameOf(account, nameOf)) == |Matching(c.occurrences, task, kind, account)|
      && S.CountAll(activities, task, KindOf(kind)) == |InRole(c.occurrences, task, kind)|
      && |activities| == |C.Entries(tasks, jobs)| + |C.Comments(C.Entries(tasks, jobs))|
  {
    hide C.IsBuilt, C.Accepts, C.Entries, C.Comments, C.Steps, Faithful, S.CountOf, S.CountAll;
    L.NothingIsMerged(c, tasks, jobs, le);
    CountsAgree(c.occurrences, nameOf, task, kind, account);
  }
}
