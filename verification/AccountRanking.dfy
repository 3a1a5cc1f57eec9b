/** The ranking of a report's accounts with ties and a cutoff (`_get_report_account_statistics`). */
module AccountRanking {
  import opened Sorting
  import opened ReportAccountStatistics
  import Arguments

  type Weights = map<string, nat>

  function Weight(w: Weights, a: string): nat {
    if a in w then w[a] else 0
  }

  /** Larger counts first; equal counts by identity. */
  function RankOrder(w: Weights, le: (string, string) -> bool): (string, string) -> bool {
    (a: string, b: string) => Weight(w, a) > Weight(w, b) || (Weight(w, a) == Weight(w, b) && le(a, b))
  }

  lemma RankOrderIsTotal(w: Weights, le: (string, string) -> bool)
    requires TotalOrder(le)
    ensures TotalOrder(RankOrder(w, le))
  {
  }

  lemma RankOrderMeans(w: Weights, le: (string, string) -> bool, a: string, b: string)
    ensures RankOrder(w, le)(a, b) <==> Weight(w, a) > Weight(w, b) || (Weight(w, a) == Weight(w, b) && le(a, b))
  {
  }

  /** Descending counts, by position. */
  lemma CountsDescend(w: Weights, le: (string, string) -> bool, ordered: seq<string>)
    requires Lists(ordered, w.Keys, RankOrder(w, le))
    ensures forall a :: a in ordered <==> a in w
    ensures forall i, j | 0 <= i < j < |ordered| :: w[ordered[i]] >= w[ordered[j]]
  {
    forall a ensures a in ordered <==> a in w {
      assert a in Elements(ordered) <==> a in w.Keys;
    }
    forall i, j | 0 <= i < j < |ordered| ensures w[ordered[i]] >= w[ordered[j]] {
      assert ordered[i] in ordered && ordered[j] in ordered;
      RankOrderMeans(w, le, ordered[i], ordered[j]);
    }
  }

  function Larger(w: Weights, count: nat): set<string> {
    set a | a in w && w[a] > count
  }

  function Tied(w: Weights, count: nat): set<string> {
    set a | a in w && w[a] == count
  }

  datatype Ranked = Ranked(identity: string, count: nat, rank: nat, tied: nat)

  datatype Ranking = Ranking(accounts: seq<Ranked>, accountCount: nat, hasMore: bool, cutoffTied: nat, cutoffOmitted: nat)

  function Shown(ordered: seq<string>, topN: nat): set<string> {
    Elements(ordered[..Arguments.Min(topN, |ordered|)])
  }

  /** What the ranking means, in terms of the counts alone. */
  ghost predicate IsRanking(w: Weights, ordered: seq<string>, topN: nat, r: Ranking) {
    var n := Arguments.Min(topN, |ordered|);
    && |r.accounts| == n && AreRanked(w, ordered, r.accounts)
    && r.accountCount == |w| == |ordered|
    && (r.hasMore <==> |w| > topN)
    && (n == 0 ==> r.cutoffTied == r.cutoffOmitted == 0)
    && (n > 0 ==>
          && r.cutoffTied == |Tied(w, r.accounts[n - 1].count)|
          && r.cutoffOmitted == |Tied(w, r.accounts[n - 1].count) - Shown(ordered, topN)|)
  }

  function Among(s: seq<string>, w: Weights, count: nat): set<string> {
    set a <- s | a in w && w[a] == count
  }

  lemma AmongSnoc(s: seq<string>, x: string, w: Weights, count: nat)
    requires x !in s && x in w
    ensures Among(s + [x], w, count) == Among(s, w, count) + (if w[x] == count then {x} else {})
    ensures |Among(s + [x], w, count)| == |Among(s, w, count)| + (if w[x] == count then 1 else 0)
  {
    assert Among(s + [x], w, count) == Among(s, w, count) + (if w[x] == count then {x} else {});
  }

  lemma AmongAll(s: seq<string>, w: Weights, count: nat)
    requires Elements(s) == w.Keys
    ensures Among(s, w, count) == Tied(w, count)
  {
    forall a | a in Tied(w, count) ensures a in s {
      assert a in Elements(s);
    }
  }

  lemma PrefixMisses<T>(s: seq<T>, i: nat)
    requires NoDuplicates(s) && i < |s|
    ensures s[i] !in s[..i] && s[..i + 1] == s[..i] + [s[i]]
  {
  }

  /** The counts seen so far, and how often. */
  ghost predicate IsFrequencies(frequencies: map<nat, nat>, s: seq<string>, w: Weights) {
    forall c: nat ::
      && (c in frequencies <==> Among(s, w, c) != {})
      && (c in frequencies ==> frequencies[c] == |Among(s, w, c)|)
  }

  lemma CountOneMore(frequencies: map<nat, nat>, s: seq<string>, w: Weights, x: string)
    requires IsFrequencies(frequencies, s, w) && x !in s && x in w
    ensures IsFrequencies(frequencies[w[x] := (if w[x] in frequencies then frequencies[w[x]] else 0) + 1], s + [x], w)
  {
    hide Among;
    forall c ensures Among(s + [x], w, c) == Among(s, w, c) + (if w[x] == c then {x} else {})
             ensures |Among(s + [x], w, c)| == |Among(s, w, c)| + (if w[x] == c then 1 else 0)
    {
      AmongSnoc(s, x, w, c);
    }
  }

  /** `Counter(entries[key][role] for key in ordered)`. */
  method Frequencies(w: Weights, ordered: seq<string>) returns (frequencies: map<nat, nat>)
    requires NoDuplicates(ordered) && Elements(ordered) == w.Keys
    ensures AreFrequencies(w, frequencies)
  {
    frequencies := map[];
    for i := 0 to |ordered|
      invariant IsFrequencies(frequencies, ordered[..i], w)
    {
      var key := ordered[i];
      assert key in Elements(ordered);
      PrefixMisses(ordered, i);
      CountOneMore(frequencies, ordered[..i], w, key);
      frequencies := frequencies[w[key] := (if w[key] in frequencies then frequencies[w[key]] else 0) + 1];
    }
    assert ordered[..|ordered|] == ordered;
    forall c ensures Among(ordered, w, c) == Tied(w, c) {
      AmongAll(ordered, w, c);
    }
  }

  function CountedAbove(w: Weights, counts: seq<nat>): set<string> {
    set a | a in w && w[a] in counts
  }

  ghost predicate AreFrequencies(w: Weights, frequencies: map<nat, nat>) {
    && (forall c :: c in frequencies <==> Tied(w, c) != {})
    && (forall c <- frequencies :: frequencies[c] == |Tied(w, c)|)
  }

  const Descending: (nat, nat) -> bool := (a: nat, b: nat) => a >= b

  lemma DescendingIsTotal()
    ensures TotalOrder(Descending)
  {
  }

  /** The loop that turns descending counts into ranks: one plus the accounts with a strictly larger count. */
  method Ranks(w: Weights, frequencies: map<nat, nat>) returns (ranks: map<nat, nat>)
    requires AreFrequencies(w, frequencies)
    ensures ranks.Keys == frequencies.Keys
    ensures forall c <- ranks :: ranks[c] == 1 + |Larger(w, c)|
  {
    hide CountedAbove, Larger, AreFrequencies, TotalOrder, Sorted, NoDuplicates, Elements, Descending;
    DescendingIsTotal();
    var counts := SortSet(frequencies.Keys, Descending);
    ranks := map[];
    var offset := 1;
    NothingAbove(w, counts);
    for i := 0 to |counts|
      invariant offset == 1 + |CountedAbove(w, counts[..i])|
      invariant ranks.Keys == Elements(counts[..i])
      invariant forall c <- ranks :: ranks[c] == 1 + |Larger(w, c)|
    {
      var count := counts[i];
      NextElement(counts, i);
      RankStep(w, frequencies, counts, i);
      ranks := ranks[count := offset];
      offset := offset + frequencies[count];
    }
    assert counts[..|counts|] == counts;
  }

  lemma NothingAbove(w: Weights, counts: seq<nat>)
    ensures CountedAbove(w, counts[..0]) == {} && Elements(counts[..0]) == {}
  {
  }

  lemma NextElement<T(!new)>(s: seq<T>, i: nat)
    requires i < |s|
    ensures s[i] in Elements(s) && Elements(s[..i + 1]) == Elements(s[..i]) + {s[i]}
  {
    assert s[..i + 1] == s[..i] + [s[i]];
  }

  lemma AboveIsLarger(w: Weights, frequencies: map<nat, nat>, counts: seq<nat>, i: nat)
    requires AreFrequencies(w, frequencies)
    requires Lists(counts, frequencies.Keys, Descending) && i < |counts|
    ensures CountedAbove(w, counts[..i]) == Larger(w, counts[i])
  {
    forall a | a in CountedAbove(w, counts[..i]) ensures w[a] > counts[i] {
      var j :| 0 <= j < i && counts[j] == w[a];
      assert counts[j] != counts[i];
    }
    forall a | a in Larger(w, counts[i]) ensures w[a] in counts[..i] {
      assert a in Tied(w, w[a]);
      assert w[a] in frequencies && w[a] in Elements(counts);
      var j :| 0 <= j < |counts| && counts[j] == w[a];
      assert j < i;
      assert counts[..i][j] == w[a];
    }
  }

  lemma RankStep(w: Weights, frequencies: map<nat, nat>, counts: seq<nat>, i: nat)
    requires AreFrequencies(w, frequencies)
    requires Lists(counts, frequencies.Keys, Descending) && i < |counts|
    ensures |CountedAbove(w, counts[..i])| == |Larger(w, counts[i])|
    ensures counts[i] in frequencies
    ensures |CountedAbove(w, counts[..i + 1])| == |Larger(w, counts[i])| + frequencies[counts[i]]
  {
    assert counts[i] in Elements(counts);
    AboveIsLarger(w, frequencies, counts, i);
    PrefixMisses(counts, i);
    assert CountedAbove(w, counts[..i + 1]) == CountedAbove(w, counts[..i]) + Tied(w, counts[i]);
    assert CountedAbove(w, counts[..i]) !! Tied(w, counts[i]);
  }

  /** `sum(entries[key][role] == cutoff for key in ordered[top_n:])`. */
  method CountOmitted(w: Weights, rest: seq<string>, cutoff: nat) returns (omitted: nat)
    requires NoDuplicates(rest) && forall a <- rest :: a in w
    ensures omitted == |Among(rest, w, cutoff)|
  {
    omitted := 0;
    assert Among(rest[..0], w, cutoff) == {};
    for i := 0 to |rest|
      invariant omitted == |Among(rest[..i], w, cutoff)|
    {
      assert rest[i] in rest;
      PrefixMisses(rest, i);
      AmongSnoc(rest[..i], rest[i], w, cutoff);
      omitted := omitted + if w[rest[i]] == cutoff then 1 else 0;
    }
    assert rest[..|rest|] == rest;
  }

  ghost predicate AreRanked(w: Weights, ordered: seq<string>, accounts: seq<Ranked>) {
    |accounts| <= |ordered| && forall i | 0 <= i < |accounts| ::
      && ordered[i] in w
      && accounts[i] == Ranked(ordered[i], w[ordered[i]], 1 + |Larger(w, w[ordered[i]])|, |Tied(w, w[ordered[i]])|)
  }

  method TopAccounts(w: Weights, ordered: seq<string>, n: nat, ranks: map<nat, nat>, frequencies: map<nat, nat>)
    returns (accounts: seq<Ranked>)
    requires n <= |ordered| && forall a <- ordered :: a in w && w[a] in ranks && w[a] in frequencies
    requires forall c <- ranks :: ranks[c] == 1 + |Larger(w, c)|
    requires forall c <- frequencies :: frequencies[c] == |Tied(w, c)|
    ensures |accounts| == n && AreRanked(w, ordered, accounts)
  {
    hide Larger, Tied;
    accounts := [];
    for i := 0 to n
      invariant |accounts| == i && AreRanked(w, ordered, accounts)
    {
      assert ordered[i] in ordered;
      var count := w[ordered[i]];
      accounts := accounts + [Ranked(ordered[i], count, ranks[count], frequencies[count])];
    }
  }

  lemma TiedWithItself(w: Weights, a: string)
    requires a in w
    ensures a in Tied(w, w[a]) && Tied(w, w[a]) != {}
  {
    assert a in Tied(w, w[a]);
  }

  lemma LastRanked(w: Weights, ordered: seq<string>, accounts: seq<Ranked>)
    requires accounts != [] && AreRanked(w, ordered, accounts)
    ensures |accounts| <= |ordered| && ordered[|accounts| - 1] in w
    ensures accounts[|accounts| - 1].count == w[ordered[|accounts| - 1]]
  {
  }

  /** The accounts with a positive count, ranked, and the top of them. */
  method RankAccounts(w: Weights, topN: nat, le: (string, string) -> bool) returns (ordered: seq<string>, ranking: Ranking)
    requires TotalOrder(le) && topN >= 1
    ensures Lists(ordered, w.Keys, RankOrder(w, le))
    ensures IsRanking(w, ordered, topN, ranking)
  {
    hide TotalOrder, RankOrder, Larger, Tied, Among, Sorted, AreRanked, NoDuplicates;
    RankOrderIsTotal(w, le);
    ordered := SortSet(w.Keys, RankOrder(w, le));
    DistinctCount(ordered);
    assert |w| == |ordered|;
    var frequencies := Frequencies(w, ordered);
    var ranks := Ranks(w, frequencies);
    var n := Arguments.Min(topN, |ordered|);
    forall a | a in ordered ensures a in w && w[a] in frequencies {
      assert a in Elements(ordered);
      TiedWithItself(w, a);
    }
    var accounts := TopAccounts(w, ordered, n, ranks, frequencies);
    var cutoffTied, omitted := 0, 0;
    if ordered != [] {
      var cutoff := w[ordered[n - 1]];
      cutoffTied := frequencies[cutoff];
      omitted := OmittedAtCutoff(w, ordered, n, cutoff);
      LastRanked(w, ordered, accounts);
    }
    ranking := Ranking(accounts, |ordered|, |ordered| > topN, cutoffTied, omitted);
  }

  method OmittedAtCutoff(w: Weights, ordered: seq<string>, n: nat, cutoff: nat) returns (omitted: nat)
    requires NoDuplicates(ordered) && Elements(ordered) == w.Keys && n <= |ordered|
    ensures omitted == |Tied(w, cutoff) - Elements(ordered[..n])|
  {
    forall a | a in ordered[n..] ensures a in w {
      assert a in Elements(ordered);
    }
    omitted := CountOmitted(w, ordered[n..], cutoff);
    OmittedAreTheRest(w, ordered, n, cutoff);
  }

  lemma OmittedAreTheRest(w: Weights, ordered: seq<string>, n: nat, cutoff: nat)
    requires NoDuplicates(ordered) && Elements(ordered) == w.Keys && n <= |ordered|
    ensures Among(ordered[n..], w, cutoff) == Tied(w, cutoff) - Elements(ordered[..n])
  {
    assert ordered == ordered[..n] + ordered[n..];
    forall a | a in Tied(w, cutoff) ensures a in ordered[..n] || a in ordered[n..] {
      assert a in Elements(ordered);
    }
    forall a | a in ordered[n..] ensures a !in ordered[..n] {
      var i :| 0 <= i < |ordered| - n && ordered[n..][i] == a;
      assert forall j | 0 <= j < n :: ordered[j] != ordered[n + i];
    }
  }

  // ---- what a reader may conclude ----

  lemma ShownBounds(w: Weights, le: (string, string) -> bool, ordered: seq<string>, n: nat)
    requires Lists(ordered, w.Keys, RankOrder(w, le)) && 0 < n <= |ordered|
    ensures ordered[n - 1] in w
    ensures
      var cutoff := w[ordered[n - 1]];
      Larger(w, cutoff) <= Elements(ordered[..n]) <= Larger(w, cutoff) + Tied(w, cutoff)
  {
    CountsDescend(w, le, ordered);
    var last := ordered[n - 1];
    assert last in ordered;
    forall a | a in Larger(w, w[last]) ensures a in ordered[..n] {
      assert a in ordered;
      var i :| 0 <= i < |ordered| && ordered[i] == a;
      assert i < n;
      assert ordered[..n][i] == a;
    }
    forall a | a in ordered[..n] ensures a in w && w[a] >= w[last] {
      var i :| 0 <= i < n && ordered[..n][i] == a;
      assert ordered[i] == a && a in ordered;
    }
  }

  lemma SplitCount<T>(a: set<T>, b: set<T>)
    ensures |a| == |a * b| + |a - b|
  {
    assert a == a * b + (a - b);
  }

  /**
    Nobody above the cutoff is missing and nobody below it is shown; the tied accounts are those
    shown at the cutoff plus those reported as omitted.
  */
  lemma TopIsFair(w: Weights, le: (string, string) -> bool, ordered: seq<string>, topN: nat, ranking: Ranking)
    requires TotalOrder(le) && topN >= 1 && w != map[]
    requires Lists(ordered, w.Keys, RankOrder(w, le)) && IsRanking(w, ordered, topN, ranking)
    ensures ranking.accounts != []
    ensures
      var cutoff := ranking.accounts[|ranking.accounts| - 1].count;
      && Larger(w, cutoff) <= Shown(ordered, topN) <= Larger(w, cutoff) + Tied(w, cutoff)
      && ranking.cutoffTied == |Tied(w, cutoff) * Shown(ordered, topN)| + ranking.cutoffOmitted
      && (ranking.cutoffOmitted > 0 ==> ranking.hasMore)
  {
    hide RankOrder, TotalOrder, Larger, Tied, Lists, AreRanked;
    var n := Arguments.Min(topN, |ordered|);
    assert |w| > 0;
    ListedElements(w, le, ordered);
    ShownBounds(w, le, ordered, n);
    LastRanked(w, ordered, ranking.accounts);
    SplitCount(Tied(w, w[ordered[n - 1]]), Shown(ordered, topN));
    if |ordered| <= topN {
      AllShown(w, ordered, topN, w[ordered[n - 1]]);
    }
  }

  lemma ListedElements(w: Weights, le: (string, string) -> bool, ordered: seq<string>)
    requires Lists(ordered, w.Keys, RankOrder(w, le))
    ensures Elements(ordered) == w.Keys
  {
  }

  lemma AllShown(w: Weights, ordered: seq<string>, topN: nat, count: nat)
    requires Elements(ordered) == w.Keys && |ordered| <= topN
    ensures Tied(w, count) - Shown(ordered, topN) == {}
  {
    assert ordered[..|ordered|] == ordered;
  }

  /** The rank of an account is the position of the first account with its count. */
  lemma RankIsFirstPosition(w: Weights, le: (string, string) -> bool, ordered: seq<string>, i: nat)
    requires Lists(ordered, w.Keys, RankOrder(w, le)) && i < |ordered|
    ensures ordered[i] in w
    ensures
      var rank := 1 + |Larger(w, w[ordered[i]])|;
      && rank <= i + 1
      && forall j | 0 <= j <= i :: ordered[j] in w && (w[ordered[j]] > w[ordered[i]] <==> j + 1 < rank)
  {
    CountsDescend(w, le, ordered);
    hide RankOrder;
    assert forall j | 0 <= j < |ordered| :: ordered[j] in ordered;
    var count := w[ordered[i]];
    var m := LargerPrefix(w, ordered, i);
    assert Larger(w, count) == Elements(ordered[..m]) by {
      forall a | a in Larger(w, count) ensures a in ordered[..m] {
        assert a in ordered;
        var j :| 0 <= j < |ordered| && ordered[j] == a;
        assert j <= i;
        assert ordered[..m][j] == a;
      }
      forall a | a in ordered[..m] ensures a in Larger(w, count) {
        var j :| 0 <= j < m && ordered[..m][j] == a;
        assert ordered[j] == a;
      }
    }
    DistinctCount(ordered[..m]);
  }

  lemma LargerPrefix(w: Weights, ordered: seq<string>, i: nat) returns (m: nat)
    requires i < |ordered| && forall j | 0 <= j < |ordered| :: ordered[j] in w
    requires forall j, k | 0 <= j < k < |ordered| :: w[ordered[j]] >= w[ordered[k]]
    ensures m <= i && forall j | 0 <= j <= i :: w[ordered[j]] > w[ordered[i]] <==> j < m
  {
    m := 0;
    while m < i && w[ordered[m]] > w[ordered[i]]
      invariant m <= i && forall j | 0 <= j < m :: w[ordered[j]] > w[ordered[i]]
    {
      m := m + 1;
    }
  }

  // ---- the tool ----

  /** The accounts that play the role at all, with how often they do. */
  function WeightsOf(entries: Entries, role: ActivityKind): Weights {
    map a | a in entries && CountFor(entries, role, a) > 0 :: CountFor(entries, role, a)
  }

  /** The ranked accounts are those that occur in the role, each with its number of activities. */
  lemma WeightsAreCounts(activities: seq<Activity>, task: string, entries: Entries, role: ActivityKind)
    requires IsCounts(activities, task, entries) && role != OtherKind
    ensures forall a :: a in WeightsOf(entries, role) <==> a != "" && CountOf(activities, task, role, a) > 0
    ensures forall a <- WeightsOf(entries, role) :: WeightsOf(entries, role)[a] == CountOf(activities, task, role, a)
  {
    forall a ensures a in WeightsOf(entries, role) <==> a != "" && CountOf(activities, task, role, a) > 0 {
      assert a in entries <==> Active(activities, task, a);
    }
  }

  /** `_get_report_account_statistics`, from the counts of the report to the ranked top of a role. */
  method ReportRanking(activities: seq<Activity>, task: string, role: ActivityKind, topN: nat, le: (string, string) -> bool)
    returns (statistics: Statistics, ordered: seq<string>, ranking: Ranking)
    requires TotalOrder(le) && topN >= 1 && role != OtherKind
    ensures exists entries: Entries ::
      && IsCounts(activities, task, entries)
      && Lists(ordered, WeightsOf(entries, role).Keys, RankOrder(WeightsOf(entries, role), le))
      && IsRanking(WeightsOf(entries, role), ordered, topN, ranking)
    ensures ranking.accountCount == if role == PostAuthor then statistics.publishers else statistics.commenters
  {
    hide TotalOrder, IsCounts, RankOrder, AreRanked, Sorted, NoDuplicates;
    var entries;
    entries, statistics := ReportStatistics(activities, task);
    ordered, ranking := RankAccounts(WeightsOf(entries, role), topN, le);
    assert WeightsOf(entries, role).Keys == if role == PostAuthor then Publishers(entries) else Commenters(entries);
    assert |WeightsOf(entries, role)| == |WeightsOf(entries, role).Keys|;
  }
}
