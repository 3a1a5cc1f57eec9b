/**
  How often each account appears in a report, what the totals are, and who ranks where
  (`_counts`, `_report_statistics`, `_get_report_account_statistics`).
*/
module ReportAccountStatistics {
  import opened Sums

  datatype ActivityKind = PostAuthor | CommentAuthor | OtherKind

  /** An account occurrence of the corpus; the empty account is an unresolved one. */
  datatype Activity = Activity(taskId: string, kind: ActivityKind, account: string)

  datatype Counter = Counter(posts: nat, comments: nat)

  type Entries = map<string, Counter>

  predicate Is(o: Activity, task: string, kind: ActivityKind, account: string) {
    o.taskId == task && o.kind == kind && o.account == account
  }

  function CountOf(activities: seq<Activity>, task: string, kind: ActivityKind, account: string): nat {
    if activities == [] then 0
    else
      var last := activities[|activities| - 1];
      CountOf(activities[..|activities| - 1], task, kind, account) + (if Is(last, task, kind, account) then 1 else 0)
  }

  function CountAll(activities: seq<Activity>, task: string, kind: ActivityKind): nat {
    if activities == [] then 0
    else
      var last := activities[|activities| - 1];
      CountAll(activities[..|activities| - 1], task, kind) + (if last.taskId == task && last.kind == kind then 1 else 0)
  }

  predicate Active(activities: seq<Activity>, task: string, account: string) {
    account != "" &&
    (CountOf(activities, task, PostAuthor, account) > 0 || CountOf(activities, task, CommentAuthor, account) > 0)
  }

  /** The entries of a task are its active accounts, each with how often it published and commented. */
  ghost predicate IsCounts(activities: seq<Activity>, task: string, entries: Entries) {
    && (forall a :: a in entries <==> Active(activities, task, a))
    && (forall a <- entries :: entries[a] == Counter(CountOf(activities, task, PostAuthor, a),
                                                     CountOf(activities, task, CommentAuthor, a)))
  }

  function UnresolvedOf(activities: seq<Activity>, task: string): nat {
    CountOf(activities, task, PostAuthor, "") + CountOf(activities, task, CommentAuthor, "")
  }

  function Bump(c: Counter, kind: ActivityKind): Counter {
    if kind.PostAuthor? then c.(posts := c.posts + 1)
    else if kind.CommentAuthor? then c.(comments := c.comments + 1)
    else c
  }

  lemma CountSnoc(activities: seq<Activity>, o: Activity, task: string, kind: ActivityKind, account: string)
    ensures CountOf(activities + [o], task, kind, account)
         == CountOf(activities, task, kind, account) + (if Is(o, task, kind, account) then 1 else 0)
    ensures CountAll(activities + [o], task, kind)
         == CountAll(activities, task, kind) + (if o.taskId == task && o.kind == kind then 1 else 0)
  {
    assert (activities + [o])[..|activities|] == activities;
  }

  lemma CountedOnce(activities: seq<Activity>, o: Activity, task: string, entries: Entries)
    requires IsCounts(activities, task, entries)
    ensures
      var relevant := o.taskId == task && o.kind != OtherKind && o.account != "";
      var before := if o.account in entries then entries[o.account] else Counter(0, 0);
      IsCounts(activities + [o], task, if relevant then entries[o.account := Bump(before, o.kind)] else entries)
  {
    hide CountOf, CountAll;
    forall kind, a
      ensures CountOf(activities + [o], task, kind, a)
           == CountOf(activities, task, kind, a) + (if Is(o, task, kind, a) then 1 else 0)
    {
      CountSnoc(activities, o, task, kind, a);
    }
  }

  /** `_counts`: one pass over the corpus for several reports at once. */
  method CountAccounts(activities: seq<Activity>, tasks: set<string>)
    returns (counts: map<string, Entries>, unresolved: map<string, nat>)
    ensures counts.Keys == tasks == unresolved.Keys
    ensures forall t <- tasks :: IsCounts(activities, t, counts[t])
    ensures forall t <- tasks :: unresolved[t] == UnresolvedOf(activities, t)
  {
    hide IsCounts, CountOf;
    counts := map t | t in tasks :: map[];
    unresolved := map t | t in tasks :: 0;
    assert activities[..0] == [];
    forall t | t in tasks ensures IsCounts([], t, counts[t]) && UnresolvedOf([], t) == 0 {
      NothingCounted(t);
    }
    for i := 0 to |activities|
      invariant counts.Keys == tasks == unresolved.Keys
      invariant forall t <- tasks :: IsCounts(activities[..i], t, counts[t])
      invariant forall t <- tasks :: unresolved[t] == UnresolvedOf(activities[..i], t)
    {
      var item := activities[i];
      assert activities[..i + 1] == activities[..i] + [item];
      forall t | t in tasks
        ensures UnresolvedOf(activities[..i + 1], t) == UnresolvedOf(activities[..i], t)
             + (if item.taskId == t && item.kind != OtherKind && item.account == "" then 1 else 0)
      {
        CountSnoc(activities[..i], item, t, PostAuthor, "");
        CountSnoc(activities[..i], item, t, CommentAuthor, "");
      }
      forall t | t in tasks
        ensures var relevant := item.taskId == t && item.kind != OtherKind && item.account != "";
                var before := if item.account in counts[t] then counts[t][item.account] else Counter(0, 0);
                IsCounts(activities[..i + 1], t, if relevant then counts[t][item.account := Bump(before, item.kind)] else counts[t])
      {
        CountedOnce(activities[..i], item, t, counts[t]);
      }
      if item.taskId in counts && item.kind != OtherKind {
        if item.account != "" {
          var entries := counts[item.taskId];
          var before := if item.account in entries then entries[item.account] else Counter(0, 0);
          counts := counts[item.taskId := entries[item.account := Bump(before, item.kind)]];
        } else {
          unresolved := unresolved[item.taskId := unresolved[item.taskId] + 1];
        }
      }
    }
    assert activities[..|activities|] == activities;
  }

  lemma NothingCounted(task: string)
    ensures IsCounts([], task, map[]) && UnresolvedOf([], task) == 0
  {
  }

  // ---- totals ----

  datatype Statistics = Statistics(publishers: nat, commenters: nat, accounts: nat, posts: nat, comments: nat,
                                   unresolvedPosts: nat, unresolvedComments: nat, complete: bool)

  function Publishers(entries: Entries): set<string> {
    set a | a in entries && entries[a].posts > 0
  }

  function Commenters(entries: Entries): set<string> {
    set a | a in entries && entries[a].comments > 0
  }

  /** Publishers are the accounts that published, commenters those that commented. */
  lemma RolesAreCounts(activities: seq<Activity>, task: string, entries: Entries)
    requires IsCounts(activities, task, entries)
    ensures forall a :: a in Publishers(entries) <==> a != "" && CountOf(activities, task, PostAuthor, a) > 0
    ensures forall a :: a in Commenters(entries) <==> a != "" && CountOf(activities, task, CommentAuthor, a) > 0
  {
    hide CountOf;
    forall a ensures a in entries <==> Active(activities, task, a) {}
  }

  /** `_report_statistics`. */
  method ReportStatistics(activities: seq<Activity>, task: string) returns (entries: Entries, statistics: Statistics)
    ensures IsCounts(activities, task, entries)
    ensures statistics == Statistics(
      |Publishers(entries)|, |Commenters(entries)|, |entries|,
      CountAll(activities, task, PostAuthor), CountAll(activities, task, CommentAuthor),
      CountOf(activities, task, PostAuthor, ""), CountOf(activities, task, CommentAuthor, ""),
      UnresolvedOf(activities, task) == 0)
  {
    var counts, _ := CountAccounts(activities, {task});
    entries := counts[task];
    var posts, comments, unresolvedPosts, unresolvedComments := 0, 0, 0, 0;
    for i := 0 to |activities|
      invariant posts == CountAll(activities[..i], task, PostAuthor)
      invariant comments == CountAll(activities[..i], task, CommentAuthor)
      invariant unresolvedPosts == CountOf(activities[..i], task, PostAuthor, "")
      invariant unresolvedComments == CountOf(activities[..i], task, CommentAuthor, "")
    {
      var item := activities[i];
      assert activities[..i + 1] == activities[..i] + [item];
      CountSnoc(activities[..i], item, task, PostAuthor, "");
      CountSnoc(activities[..i], item, task, CommentAuthor, "");
      if item.taskId == task && item.kind == PostAuthor {
        posts := posts + 1;
        unresolvedPosts := unresolvedPosts + if item.account == "" then 1 else 0;
      }
      if item.taskId == task && item.kind == CommentAuthor {
        comments := comments + 1;
        unresolvedComments := unresolvedComments + if item.account == "" then 1 else 0;
      }
    }
    assert activities[..|activities|] == activities;
    statistics := Statistics(|Publishers(entries)|, |Commenters(entries)|, |entries|, posts, comments,
                             unresolvedPosts, unresolvedComments, unresolvedPosts + unresolvedComments == 0);
  }

  lemma {:induction false} TotalIsSumPlusUnresolved(activities: seq<Activity>, task: string, kind: ActivityKind, accounts: set<string>)
    requires "" !in accounts
    requires forall o <- activities :: o.taskId == task && o.kind == kind && o.account != "" ==> o.account in accounts
    ensures CountAll(activities, task, kind)
         == CountOf(activities, task, kind, "") + Sum(accounts, a => CountOf(activities, task, kind, a))
    decreases |activities|
  {
    if activities == [] {
      SumZero(accounts, a => CountOf(activities, task, kind, a));
    } else {
      var init, o := activities[..|activities| - 1], activities[|activities| - 1];
      assert activities == init + [o];
      TotalIsSumPlusUnresolved(init, task, kind, accounts);
      var f := a => CountOf(init, task, kind, a);
      var g := a => CountOf(activities, task, kind, a);
      if o.taskId == task && o.kind == kind && o.account != "" {
        SumRaise(accounts, f, g, o.account, 1);
      } else {
        SumSame(accounts, f, g);
      }
    }
  }

  lemma {:induction false} OccurrenceIsCounted(activities: seq<Activity>, o: Activity)
    requires o in activities
    ensures CountOf(activities, o.taskId, o.kind, o.account) > 0
    decreases |activities|
  {
    var init, last := activities[..|activities| - 1], activities[|activities| - 1];
    if last != o {
      assert activities == init + [last];
      OccurrenceIsCounted(init, o);
    }
  }

  function CountFor(entries: Entries, kind: ActivityKind, account: string): nat {
    if account !in entries then 0
    else if kind.PostAuthor? then entries[account].posts
    else if kind.CommentAuthor? then entries[account].comments
    else 0
  }

  /** The total of a report is what its identified accounts did plus what stayed unresolved, for posts and for comments. */
  lemma TotalsAreConserved(activities: seq<Activity>, task: string, entries: Entries, kind: ActivityKind)
    requires IsCounts(activities, task, entries) && kind != OtherKind
    ensures CountAll(activities, task, kind)
         == CountOf(activities, task, kind, "") + Sum(entries.Keys, a => CountFor(entries, kind, a))
  {
    forall o | o in activities && o.taskId == task && o.kind == kind && o.account != "" ensures o.account in entries {
      OccurrenceIsCounted(activities, o);
    }
    TotalIsSumPlusUnresolved(activities, task, kind, entries.Keys);
    SumSame(entries.Keys, a => CountOf(activities, task, kind, a), a => CountFor(entries, kind, a));
  }

  /** Everyone counted is a publisher or a commenter, and whoever is both is counted once. */
  lemma AccountsAreCountedOnce(activities: seq<Activity>, task: string, entries: Entries)
    requires IsCounts(activities, task, entries)
    ensures |entries| + |Publishers(entries) * Commenters(entries)| == |Publishers(entries)| + |Commenters(entries)|
  {
    var p, c := Publishers(entries), Commenters(entries);
    assert entries.Keys == p + c;
    assert p + c == (p - c) + c && p == (p - c) + p * c;
  }
}
