/**
  What the account tools count (`AccountCorpus._build_indexes`, `overview`): indexes that agree with a
  scan of the corpus, and distributions that add up to the totals.
*/
module AccountOverview {
  import opened Wrappers
  import opened Sorting
  import opened Sums
  import opened AccountCorpus

  // ---- the index by account ----

  /** Chronological order with tie-breaks down to the reference. */
  type Chronology = (Occurrence, Occurrence) -> bool

  function OfAccount(occurrences: seq<Occurrence>, account: AccountRef): set<Occurrence> {
    set o <- occurrences | o.account == Some(account)
  }

  /** The index holds, for every account that occurs, all its occurrences, in order and once each. */
  ghost predicate IsIndex(index: map<AccountRef, seq<Occurrence>>, occurrences: seq<Occurrence>, order: Chronology) {
    && (forall a :: a in index <==> OfAccount(occurrences, a) != {})
    && (forall a <- index :: Lists(index[a], OfAccount(occurrences, a), order))
  }

  lemma OfAccountSnoc(occurrences: seq<Occurrence>, o: Occurrence, account: AccountRef)
    ensures OfAccount(occurrences + [o], account)
         == OfAccount(occurrences, account) + (if o.account == Some(account) then {o} else {})
  {
  }

  /** The grouping loop of `_build_indexes`, and the sort of every group. */
  method BuildIndex(occurrences: seq<Occurrence>, order: Chronology) returns (index: map<AccountRef, seq<Occurrence>>)
    requires TotalOrder(order)
    ensures IsIndex(index, occurrences, order)
  {
    hide TotalOrder, Sorted, NoDuplicates, Elements, OfAccount;
    var grouped: map<AccountRef, set<Occurrence>> := map[];
    assert forall a :: OfAccount([], a) == {} by {
      NobodyOccurs();
    }
    for i := 0 to |occurrences|
      invariant forall a :: (if a in grouped then grouped[a] else {}) == OfAccount(occurrences[..i], a)
      invariant forall a <- grouped :: grouped[a] != {}
    {
      var o := occurrences[i];
      assert occurrences[..i + 1] == occurrences[..i] + [o];
      forall a ensures OfAccount(occurrences[..i + 1], a) == OfAccount(occurrences[..i], a) + (if o.account == Some(a) then {o} else {}) {
        OfAccountSnoc(occurrences[..i], o, a);
      }
      if o.account.Some? {
        var a := o.account.value;
        grouped := grouped[a := (if a in grouped then grouped[a] else {}) + {o}];
      }
    }
    assert occurrences[..|occurrences|] == occurrences;
    index := map[];
    var todo := grouped.Keys;
    while todo != {}
      invariant todo <= grouped.Keys && index.Keys == grouped.Keys - todo
      invariant forall a <- index :: Lists(index[a], grouped[a], order)
      decreases |todo|
    {
      var a :| a in todo;
      var values := SortSet(grouped[a], order);
      index := index[a := values];
      todo := todo - {a};
    }
  }

  lemma NobodyOccurs()
    ensures forall a :: OfAccount([], a) == {}
  {
  }

  /** `occurrences_for` answers what sorting a scan of the whole corpus would answer. */
  lemma IndexAgreesWithScan(index: map<AccountRef, seq<Occurrence>>, occurrences: seq<Occurrence>, order: Chronology,
                            account: AccountRef, scan: seq<Occurrence>)
    requires TotalOrder(order) && IsIndex(index, occurrences, order)
    requires Lists(scan, OfAccount(occurrences, account), order)
    ensures (if account in index then index[account] else []) == scan
  {
    hide TotalOrder, Sorted;
    assert scan != [] ==> scan[0] in Elements(scan);
    if account in index {
      ListingIsUnique(index[account], scan, OfAccount(occurrences, account), order);
    }
  }

  // ---- counting ----

  function Count(values: seq<Occurrence>, counts: Occurrence -> bool): nat {
    if values == [] then 0 else (if counts(values[0]) then 1 else 0) + Count(values[1..], counts)
  }

  const IsComment: Occurrence -> bool := (o: Occurrence) => o.kind.CommentAuthor?
  const IsPost: Occurrence -> bool := (o: Occurrence) => o.kind.PostAuthor?
  const TaskOf: Occurrence -> string := (o: Occurrence) => o.taskId

  function OfKey<K(==)>(counts: Occurrence -> bool, keyOf: Occurrence -> K, key: K): Occurrence -> bool {
    (o: Occurrence) => counts(o) && keyOf(o) == key
  }

  /** Counts by key add up to the count of everything, whatever the key. */
  lemma {:induction false} CountsAddUp<K(!new)>(values: seq<Occurrence>, counts: Occurrence -> bool, keyOf: Occurrence -> K, keys: set<K>)
    requires forall o <- values :: counts(o) ==> keyOf(o) in keys
    ensures Sum(keys, k => Count(values, OfKey(counts, keyOf, k))) == Count(values, counts)
  {
    var all := (k: K) => Count(values, OfKey(counts, keyOf, k));
    if values == [] {
      SumZero(keys, all);
    } else {
      var first, rest := values[0], values[1..];
      assert first in values && forall o <- rest :: o in values;
      CountsAddUp(rest, counts, keyOf, keys);
      var later := (k: K) => Count(rest, OfKey(counts, keyOf, k));
      forall k ensures all(k) == later(k) + (if counts(first) && keyOf(first) == k then 1 else 0) {
        CountFirst(values, OfKey(counts, keyOf, k));
      }
      if counts(first) {
        SumRaise(keys, later, all, keyOf(first), 1);
      } else {
        SumSame(keys, later, all);
      }
    }
  }

  lemma CountFirst(values: seq<Occurrence>, counts: Occurrence -> bool)
    requires values != []
    ensures Count(values, counts) == Count(values[1..], counts) + (if counts(values[0]) then 1 else 0)
  {
  }

  // ---- the overview ----

  datatype Counts = Counts(comments: nat, posts: nat, commentedPosts: nat)

  function CommentedPosts(values: seq<Occurrence>): set<(string, string)> {
    set o <- values | o.kind.CommentAuthor? :: (o.taskId, o.post.contentKey)
  }

  /** `_overview_statistics`, for the counts. */
  function CountsOf(values: seq<Occurrence>): Counts {
    Counts(Count(values, IsComment), Count(values, IsPost), |CommentedPosts(values)|)
  }

  function Tasks(values: seq<Occurrence>): set<string> {
    set o <- values :: o.taskId
  }

  function InTask(values: seq<Occurrence>, task: string): seq<Occurrence> {
    if values == [] then []
    else (if values[0].taskId == task then [values[0]] else []) + InTask(values[1..], task)
  }

  lemma {:induction false} InTaskMembers(values: seq<Occurrence>, task: string)
    ensures forall o :: o in InTask(values, task) <==> o in values && o.taskId == task
  {
    if values != [] {
      InTaskMembers(values[1..], task);
      assert values == [values[0]] + values[1..];
    }
  }

  lemma {:induction false} CountInTask(values: seq<Occurrence>, task: string, counts: Occurrence -> bool)
    ensures Count(InTask(values, task), counts) == Count(values, OfKey(counts, TaskOf, task))
  {
    if values != [] {
      hide Count;
      CountInTask(values[1..], task, counts);
      CountFirst(values, OfKey(counts, TaskOf, task));
      var rest := InTask(values[1..], task);
      assert InTask(values, task) == if values[0].taskId == task then [values[0]] + rest else rest;
      if values[0].taskId == task {
        assert ([values[0]] + rest)[1..] == rest;
        CountFirst([values[0]] + rest, counts);
      }
    } else {
      CountNothing(counts);
      CountNothing(OfKey(counts, TaskOf, task));
    }
  }

  lemma CountNothing(counts: Occurrence -> bool)
    ensures Count([], counts) == 0
  {
  }

  lemma TaskCountsAddUp(values: seq<Occurrence>, counts: Occurrence -> bool)
    ensures Sum(Tasks(values), t => Count(InTask(values, t), counts)) == Count(values, counts)
  {
    CountsAddUp(values, counts, TaskOf, Tasks(values));
    forall t | t in Tasks(values) ensures Count(InTask(values, t), counts) == Count(values, OfKey(counts, TaskOf, t)) {
      CountInTask(values, t, counts);
    }
    SumSame(Tasks(values), t => Count(InTask(values, t), counts), t => Count(values, OfKey(counts, TaskOf, t)));
  }

  function PairsOf(pairs: set<(string, string)>, task: string): set<(string, string)> {
    set p <- pairs | p.0 == task
  }

  lemma PairsOfRest(pairs: set<(string, string)>, x: (string, string), task: string)
    requires x in pairs
    ensures |PairsOf(pairs, task)| == |PairsOf(pairs - {x}, task)| + (if x.0 == task then 1 else 0)
  {
    assert PairsOf(pairs, task) == PairsOf(pairs - {x}, task) + (if x.0 == task then {x} else {});
  }

  lemma {:induction false} PairsAddUp(pairs: set<(string, string)>, tasks: set<string>, sizes: string -> nat)
    requires forall p <- pairs :: p.0 in tasks
    requires forall t <- tasks :: sizes(t) == |PairsOf(pairs, t)|
    ensures Sum(tasks, sizes) == |pairs|
    decreases |pairs|
  {
    hide PairsOf;
    if pairs == {} {
      forall t | t in tasks ensures sizes(t) == 0 {
        assert PairsOf(pairs, t) == {} by {
          NoPairs(t);
        }
      }
      SumZero(tasks, sizes);
    } else {
      var x :| x in pairs;
      var later := (t: string) => |PairsOf(pairs - {x}, t)|;
      PairsAddUp(pairs - {x}, tasks, later);
      forall t | t in tasks ensures sizes(t) == later(t) + (if x.0 == t then 1 else 0) {
        PairsOfRest(pairs, x, t);
      }
      SumRaise(tasks, later, sizes, x.0, 1);
    }
  }

  lemma NoPairs(task: string)
    ensures PairsOf({}, task) == {}
  {
  }

  lemma CommentedPostsAddUp(values: seq<Occurrence>)
    ensures Sum(Tasks(values), t => |CommentedPosts(InTask(values, t))|) == |CommentedPosts(values)|
  {
    var sizes := (t: string) => |CommentedPosts(InTask(values, t))|;
    var pairs := CommentedPosts(values);
    forall t | t in Tasks(values) ensures sizes(t) == |PairsOf(pairs, t)| {
      InTaskMembers(values, t);
      assert CommentedPosts(InTask(values, t)) == PairsOf(pairs, t);
    }
    PairsAddUp(pairs, Tasks(values), sizes);
  }

  /** The source distribution adds up to the account's totals: comments, posts and commented posts. */
  lemma SourcesAddUp(values: seq<Occurrence>)
    ensures Sum(Tasks(values), t => CountsOf(InTask(values, t)).comments) == CountsOf(values).comments
    ensures Sum(Tasks(values), t => CountsOf(InTask(values, t)).posts) == CountsOf(values).posts
    ensures Sum(Tasks(values), t => CountsOf(InTask(values, t)).commentedPosts) == CountsOf(values).commentedPosts
  {
    hide Sum, Count, CommentedPosts, InTask;
    var tasks := Tasks(values);
    TaskCountsAddUp(values, IsComment);
    TaskCountsAddUp(values, IsPost);
    CommentedPostsAddUp(values);
    SumSame(tasks, t => CountsOf(InTask(values, t)).comments, t => Count(InTask(values, t), IsComment));
    SumSame(tasks, t => CountsOf(InTask(values, t)).posts, t => Count(InTask(values, t), IsPost));
    SumSame(tasks, t => CountsOf(InTask(values, t)).commentedPosts, t => |CommentedPosts(InTask(values, t))|);
  }

  const HasTarget: Occurrence -> bool := (o: Occurrence) => o.kind.CommentAuthor? && o.parentAuthor.Some?
  const NoTarget: Occurrence -> bool := (o: Occurrence) => o.kind.CommentAuthor? && o.parentAuthor.None?
  const TargetOf: Occurrence -> Option<AccountRef> := (o: Occurrence) => o.parentAuthor

  /** The accounts that an account commented on. */
  function Targets(values: seq<Occurrence>): set<Option<AccountRef>> {
    set o <- values | o.kind.CommentAuthor? && o.parentAuthor.Some? :: o.parentAuthor
  }

  lemma {:induction false} CountEither(values: seq<Occurrence>)
    ensures Count(values, IsComment) == Count(values, HasTarget) + Count(values, NoTarget)
  {
    if values != [] {
      CountEither(values[1..]);
    }
  }

  /** The comments per target, and those under posts of unknown authors, are all comments. */
  lemma TargetsAddUp(values: seq<Occurrence>)
    ensures Sum(Targets(values), t => Count(values, OfKey(HasTarget, TargetOf, t))) + Count(values, NoTarget)
         == CountsOf(values).comments
  {
    CountEither(values);
    CountsAddUp(values, HasTarget, TargetOf, Targets(values));
  }
}
