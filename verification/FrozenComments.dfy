/**
  The comments of a published report (`_project_frozen_comments`): each is projected from its compact
  and its raw form, with a status and a level that the loader has checked. The comments that the
  delivery pages through come from here and from nowhere else.
*/
module FrozenComments {
  import opened Wrappers
  import opened Arguments
  import opened Lines
  import opened Sorting
  import B = CommentBatches

  /** A comment of a snapshot payload; a missing field is empty. */
  datatype RawComment = RawComment(commentId: string, auditStatus: string, riskLevel: string, createTime: string,
                                   content: string, nickname: string)

  /** The comments of one post's payload, in the compact and in the raw projection. */
  datatype Payload = Payload(postRef: string, compact: seq<RawComment>, raw: seq<RawComment>)

  /** A projected comment and the post it belongs to. */
  datatype Item = Item(postRef: string, comment: B.Comment)

  datatype Audit = Audit(status: string, level: string)

  /** The parsing of a timestamp, which may fail. */
  type Clock = string -> Option<string>

  // ---- normalised text ----

  /** `normalize_source_id`. */
  function Normal(s: string): string {
    Strip(UnixNewlines(s))
  }

  function Lower(s: string): string {
    seq(|s|, i requires 0 <= i < |s| => if 'A' <= s[i] <= 'Z' then s[i] - 'A' + 'a' else s[i])
  }

  /** `utc_timestamp`: nothing for nothing, and a failure for what cannot be parsed. */
  function UtcTimestamp(clock: Clock, s: string): Option<string> {
    if Normal(s) == "" then Some("") else clock(Normal(s))
  }

  // ---- one comment ----

  function IdOf(c: RawComment): string {
    Normal(c.commentId)
  }

  /** The entries of one identity, in their order. */
  function Candidates(values: seq<RawComment>, id: string): seq<RawComment> {
    if values == [] then []
    else
      var last := values[|values| - 1];
      Candidates(values[..|values| - 1], id) + (if IdOf(last) == id then [last] else [])
  }

  function First(candidates: seq<RawComment>): Option<RawComment> {
    if candidates == [] then None else Some(candidates[0])
  }

  /** `value`: the raw form's field if it says something, else the compact form's. */
  function ValueOf(raw: Option<RawComment>, compact: Option<RawComment>, field: RawComment -> string): string {
    if raw.Some? && Normal(field(raw.value)) != "" then field(raw.value)
    else if compact.Some? && Normal(field(compact.value)) != "" then field(compact.value)
    else ""
  }

  /** The checks on status and level, in their order. */
  function ProjectAudit(status: string, level: string): Result<Audit> {
    if status == "" && level == "" then Ok(Audit("unavailable", "unavailable"))
    else if status !in ["completed", "failed", "pending", "queued"] then Err("audit_status_invalid")
    else if status in ["failed", "pending", "queued"] && level in ["", "unknown", "unavailable"] then Ok(Audit(status, "unavailable"))
    else if level !in ["none", "low", "medium", "high"] then Err("risk_level_invalid")
    else Ok(Audit(status, level))
  }

  function ProjectOne(compact: seq<RawComment>, raw: seq<RawComment>, id: string, clock: Clock): Result<B.Comment> {
    var c, r := First(Candidates(compact, id)), First(Candidates(raw, id));
    var status, level := ValueOf(r, c, (x: RawComment) => x.auditStatus), ValueOf(r, c, (x: RawComment) => x.riskLevel);
    var audit := ProjectAudit(Lower(Normal(status)), Lower(Normal(level)));
    var published := UtcTimestamp(clock, ValueOf(r, c, (x: RawComment) => x.createTime));
    if audit.Err? then Err(audit.code)
    else if published.None? then Err("published_at_invalid")
    else Ok(B.Comment(id, ValueOf(r, c, (x: RawComment) => x.content), Normal(ValueOf(r, c, (x: RawComment) => x.nickname)), published.value,
                      audit.value.status, audit.value.level))
  }

  // ---- the comments of one post ----

  function IdsOf(values: seq<RawComment>): set<string> {
    set v <- values :: IdOf(v)
  }

  const IdOfComment: B.Comment -> string := (c: B.Comment) => c.id
  const OrderKey: B.Comment -> seq<string> := (c: B.Comment) => [c.publishedAt, c.id]
  const ItemKey: Item -> seq<string> := (i: Item) => [i.postRef, i.comment.publishedAt, i.comment.id]
  const PostOf: Payload -> string := (p: Payload) => p.postRef

  const TupleOrder: (seq<string>, seq<string>) -> bool := (a: seq<string>, b: seq<string>) => Lexicographic(a, b, StringOrder)

  lemma OrdersAreTotal()
    ensures TotalOrder(StringOrder) && TotalOrder(TupleOrder)
  {
    StringOrderIsTotal();
    LexicographicIsTotal(StringOrder);
    assert TotalOrder(TupleOrder) by {
      assert forall a, b :: TupleOrder(a, b) == ((a: seq<string>, b: seq<string>) => Lexicographic(a, b, StringOrder))(a, b);
    }
  }

  predicate Identified(values: seq<RawComment>) {
    forall v <- values :: IdOf(v) != ""
  }

  ghost predicate Acceptable(p: Payload, clock: Clock) {
    && Identified(p.compact) && Identified(p.raw)
    && forall id <- IdsOf(p.compact) + IdsOf(p.raw) :: ProjectOne(p.compact, p.raw, id, clock).Ok?
  }

  /** One comment for every identity, in the order of time and identity. */
  ghost predicate Projects(p: Payload, clock: Clock, comments: seq<B.Comment>) {
    && UniqueBy(comments, IdOfComment) && SortedBy(comments, OrderKey, TupleOrder)
    && KeySet(comments, IdOfComment) == IdsOf(p.compact) + IdsOf(p.raw)
    && forall c <- comments :: ProjectOne(p.compact, p.raw, c.id, clock) == Ok(c)
  }

  ghost predicate Groups(index: map<string, seq<RawComment>>, values: seq<RawComment>) {
    && index.Keys == IdsOf(values)
    && forall id :: (if id in index then index[id] else []) == Candidates(values, id)
  }

  lemma GroupsGrow(index: map<string, seq<RawComment>>, values: seq<RawComment>, v: RawComment)
    requires Groups(index, values)
    ensures Groups(index[IdOf(v) := (if IdOf(v) in index then index[IdOf(v)] else []) + [v]], values + [v])
  {
    hide IdOf, Candidates;
    var id := IdOf(v);
    var index' := index[id := (if id in index then index[id] else []) + [v]];
    assert IdsOf(values + [v]) == IdsOf(values) + {id};
    forall other ensures (if other in index' then index'[other] else []) == Candidates(values + [v], other) {
      OneMoreCandidate(values, v, other);
    }
  }

  lemma OneMoreCandidate(values: seq<RawComment>, v: RawComment, id: string)
    ensures Candidates(values + [v], id) == Candidates(values, id) + (if IdOf(v) == id then [v] else [])
  {
    assert (values + [v])[..|values|] == values;
  }

  /** `index`: the entries by identity; an empty identity is refused. */
  method Index(values: seq<RawComment>) returns (index: Option<map<string, seq<RawComment>>>)
    ensures index.Some? <==> Identified(values)
    ensures index.Some? ==> Groups(index.value, values)
  {
    hide IdOf, Groups;
    var indexed: map<string, seq<RawComment>> := map[];
    assert Groups(indexed, []) by { NothingGrouped(); }
    for i := 0 to |values|
      invariant Identified(values[..i]) && Groups(indexed, values[..i])
    {
      var id := IdOf(values[i]);
      assert values[..i + 1] == values[..i] + [values[i]];
      if id == "" {
        return None;
      }
      GroupsGrow(indexed, values[..i], values[i]);
      indexed := indexed[id := (if id in indexed then indexed[id] else []) + [values[i]]];
    }
    assert values[..|values|] == values;
    return Some(indexed);
  }

  lemma NothingGrouped()
    ensures Groups(map[], [])
  {
  }

  lemma ProjectedId(p: Payload, id: string, clock: Clock)
    ensures ProjectOne(p.compact, p.raw, id, clock).Ok? ==> ProjectOne(p.compact, p.raw, id, clock).value.id == id
  {
  }

  /** The comments before they are sorted by time. */
  ghost predicate Collected(p: Payload, clock: Clock, comments: seq<B.Comment>) {
    && UniqueBy(comments, IdOfComment) && UniqueBy(comments, OrderKey)
    && KeySet(comments, IdOfComment) == IdsOf(p.compact) + IdsOf(p.raw)
    && forall c <- comments :: ProjectOne(p.compact, p.raw, c.id, clock) == Ok(c)
  }

  lemma DistinctIdsDistinctKeys(comments: seq<B.Comment>)
    requires UniqueBy(comments, IdOfComment)
    ensures UniqueBy(comments, OrderKey)
  {
    forall i, j | 0 <= i < j < |comments| ensures OrderKey(comments[i]) != OrderKey(comments[j]) {
      assert IdOfComment(comments[i]) != IdOfComment(comments[j]);
      assert OrderKey(comments[i])[1] == comments[i].id && OrderKey(comments[j])[1] == comments[j].id;
    }
  }

  lemma OutputProjects(p: Payload, clock: Clock, ids: seq<string>, output: seq<B.Comment>)
    requires NoDuplicates(ids) && Elements(ids) == IdsOf(p.compact) + IdsOf(p.raw) && |output| == |ids|
    requires forall j | 0 <= j < |ids| :: ProjectOne(p.compact, p.raw, ids[j], clock) == Ok(output[j])
    ensures Collected(p, clock, output)
  {
    hide ProjectOne;
    forall j | 0 <= j < |ids| ensures output[j].id == ids[j] {
      ProjectedId(p, ids[j], clock);
    }
    forall id | id in Elements(ids) ensures id in KeySet(output, IdOfComment) {
      var j :| 0 <= j < |ids| && ids[j] == id;
      assert output[j] in output && IdOfComment(output[j]) == id;
    }
    forall id | id in KeySet(output, IdOfComment) ensures id in Elements(ids) {
      var c :| c in output && IdOfComment(c) == id;
      var j :| 0 <= j < |output| && output[j] == c;
      assert ids[j] in ids;
    }
    DistinctIdsDistinctKeys(output);
  }

  lemma SortedProjects(p: Payload, clock: Clock, output: seq<B.Comment>, sorted: seq<B.Comment>)
    requires Collected(p, clock, output)
    requires SortedBy(sorted, OrderKey, TupleOrder) && UniqueBy(sorted, OrderKey) && Elements(sorted) == Elements(output)
    ensures Projects(p, clock, sorted)
  {
    hide ProjectOne, SortedBy;
    assert forall c :: c in sorted <==> c in Elements(sorted);
    assert forall c :: c in output <==> c in Elements(output);
    StaysDistinct(output, sorted, OrderKey, IdOfComment);
    assert KeySet(sorted, IdOfComment) == KeySet(output, IdOfComment);
  }

  /** `_project_frozen_comments`. */
  method ProjectComments(p: Payload, clock: Clock) returns (comments: Result<seq<B.Comment>>)
    ensures comments.Ok? <==> Acceptable(p, clock)
    ensures comments.Ok? ==> Projects(p, clock, comments.value)
  {
    hide ProjectOne, IdOf, IdsOf, Candidates, Identified, TotalOrder, Sorted, SortedBy, NoDuplicates, UniqueBy, KeySet, Projects, Lexicographic;
    var compactById := Index(p.compact);
    var rawById := Index(p.raw);
    if compactById.None? || rawById.None? {
      return Err("comment_identity_empty");
    }
    OrdersAreTotal();
    var ids := SortSet(compactById.value.Keys + rawById.value.Keys, StringOrder);
    var output: seq<B.Comment> := [];
    for i := 0 to |ids|
      invariant |output| == i
      invariant forall j | 0 <= j < i :: ProjectOne(p.compact, p.raw, ids[j], clock) == Ok(output[j])
    {
      assert ids[i] in Elements(ids);
      var comment := ProjectOne(p.compact, p.raw, ids[i], clock);
      if comment.Err? {
        return Err(comment.code);
      }
      output := output + [comment.value];
    }
    OutputProjects(p, clock, ids, output);
    var sorted := SortByKey(output, OrderKey, TupleOrder);
    SortedProjects(p, clock, output, sorted);
    comments := Ok(sorted);
  }

  // ---- the comments of the report ----

  /** The comment is the one that this payload has under its identity. */
  ghost predicate IsComment(p: Payload, clock: Clock, c: B.Comment) {
    c.id in IdsOf(p.compact) + IdsOf(p.raw) && ProjectOne(p.compact, p.raw, c.id, clock) == Ok(c)
  }

  lemma ProjectedAreComments(p: Payload, clock: Clock, comments: seq<B.Comment>, c: B.Comment)
    requires Projects(p, clock, comments)
    ensures c in comments <==> IsComment(p, clock, c)
  {
    hide ProjectOne, SortedBy, UniqueBy, IdsOf;
    if c in comments {
      assert IdOfComment(c) in KeySet(comments, IdOfComment);
    }
    if IsComment(p, clock, c) {
      assert c.id in KeySet(comments, IdOfComment);
      var d :| d in comments && IdOfComment(d) == c.id;
      assert ProjectOne(p.compact, p.raw, d.id, clock) == Ok(d);
    }
  }

  const ItemId: Item -> (string, string) := (i: Item) => (i.postRef, i.comment.id)

  function ItemsOf(postRef: string, comments: seq<B.Comment>): seq<Item> {
    seq(|comments|, i requires 0 <= i < |comments| => Item(postRef, comments[i]))
  }

  function OfPost(items: seq<Item>, postRef: string): seq<B.Comment> {
    if items == [] then []
    else (if items[0].postRef == postRef then [items[0].comment] else []) + OfPost(items[1..], postRef)
  }

  function PostRefs(payloads: seq<Payload>): set<string> {
    set p <- payloads :: p.postRef
  }

  /** The flat list has the comments of these payloads, each once. */
  ghost predicate Gathers(items: seq<Item>, payloads: seq<Payload>, clock: Clock) {
    && UniqueBy(items, ItemId)
    && (forall i <- items :: i.postRef in PostRefs(payloads))
    && forall p, c | p in payloads :: Item(p.postRef, c) in items <==> IsComment(p, clock, c)
  }

  lemma GathersMore(items: seq<Item>, payloads: seq<Payload>, p: Payload, comments: seq<B.Comment>, clock: Clock)
    requires Gathers(items, payloads, clock) && Projects(p, clock, comments) && p.postRef !in PostRefs(payloads)
    ensures Gathers(items + ItemsOf(p.postRef, comments), payloads + [p], clock)
  {
    hide IsComment, SortedBy, KeySet, IdsOf, ProjectOne;
    var more, all := ItemsOf(p.postRef, comments), items + ItemsOf(p.postRef, comments);
    forall i, j | 0 <= i < j < |all| ensures ItemId(all[i]) != ItemId(all[j]) {
      if j < |items| {
        assert ItemId(items[i]) != ItemId(items[j]);
      } else if i < |items| {
        assert items[i] in items;
      } else {
        assert IdOfComment(comments[i - |items|]) != IdOfComment(comments[j - |items|]);
      }
    }
    forall c ensures Item(p.postRef, c) in more <==> IsComment(p, clock, c) {
      ProjectedAreComments(p, clock, comments, c);
      if c in comments {
        var k :| 0 <= k < |comments| && comments[k] == c;
        assert more[k] == Item(p.postRef, c);
      }
    }
    assert forall q <- payloads :: q.postRef in PostRefs(payloads);
    assert PostRefs(payloads + [p]) == PostRefs(payloads) + {p.postRef};
  }

  lemma {:induction false} OfPostIsFilter(items: seq<Item>, postRef: string)
    ensures forall c :: c in OfPost(items, postRef) <==> Item(postRef, c) in items
  {
    if items != [] {
      OfPostIsFilter(items[1..], postRef);
      assert items == [items[0]] + items[1..];
    }
  }

  lemma TailIsUnique<K(!new)>(items: seq<Item>, keyOf: Item -> K)
    requires items != [] && UniqueBy(items, keyOf)
    ensures UniqueBy(items[1..], keyOf) && forall i <- items[1..] :: keyOf(i) != keyOf(items[0])
  {
    forall x | x in items[1..] ensures keyOf(x) != keyOf(items[0]) {
      var i :| 0 <= i < |items[1..]| && items[1..][i] == x;
      assert items[i + 1] == x;
    }
  }

  lemma {:induction false} OfPostIsDistinct(items: seq<Item>, postRef: string)
    requires UniqueBy(items, ItemId)
    ensures UniqueBy(OfPost(items, postRef), IdOfComment)
  {
    if items != [] {
      TailIsUnique(items, ItemId);
      OfPostIsDistinct(items[1..], postRef);
      OfPostIsFilter(items[1..], postRef);
      var rest := OfPost(items[1..], postRef);
      forall k | 0 <= k < |rest| && items[0].postRef == postRef ensures rest[k].id != items[0].comment.id {
        assert rest[k] in rest && Item(postRef, rest[k]) in items[1..];
        assert ItemId(Item(postRef, rest[k])) != ItemId(items[0]);
      }
    }
  }

  lemma SameOrder(a: Item, b: Item)
    requires a.postRef == b.postRef && TupleOrder(ItemKey(a), ItemKey(b))
    ensures TupleOrder(OrderKey(a.comment), OrderKey(b.comment))
  {
    assert ItemKey(a)[1..] == OrderKey(a.comment) && ItemKey(b)[1..] == OrderKey(b.comment);
  }

  lemma {:induction false} OfPostIsSorted(items: seq<Item>, postRef: string)
    requires SortedBy(items, ItemKey, TupleOrder)
    ensures SortedBy(OfPost(items, postRef), OrderKey, TupleOrder)
  {
    if items != [] {
      assert SortedBy(items[1..], ItemKey, TupleOrder);
      OfPostIsSorted(items[1..], postRef);
      OfPostIsFilter(items[1..], postRef);
      var rest := OfPost(items[1..], postRef);
      forall k | 0 <= k < |rest| && items[0].postRef == postRef
        ensures TupleOrder(OrderKey(items[0].comment), OrderKey(rest[k]))
      {
        assert rest[k] in rest;
        var j :| 0 <= j < |items[1..]| && items[1..][j] == Item(postRef, rest[k]);
        assert items[j + 1] == Item(postRef, rest[k]);
        SameOrder(items[0], Item(postRef, rest[k]));
      }
    }
  }

  /** The all-pass templates refuse a report with a risk comment. */
  ghost predicate AllowedAll(payloads: seq<Payload>, allPass: bool, clock: Clock) {
    allPass ==> forall p, c | p in payloads && IsComment(p, clock, c) :: !B.Matches(c, B.Risk)
  }

  ghost predicate AcceptableAll(payloads: seq<Payload>, clock: Clock) {
    forall p <- payloads :: Acceptable(p, clock)
  }

  /** The report has each post's own projected comments, in their order. */
  ghost predicate IsLoaded(payloads: seq<Payload>, clock: Clock, report: B.Report) {
    && report.posts == PostRefs(payloads) && report.commentsByPost.Keys == report.posts
    && forall p <- payloads :: Projects(p, clock, report.commentsByPost[p.postRef])
  }

  lemma CommentsAreProjected(p: Payload, clock: Clock, comments: seq<B.Comment>)
    requires Acceptable(p, clock) && forall c :: c in comments <==> IsComment(p, clock, c)
    requires UniqueBy(comments, IdOfComment) && SortedBy(comments, OrderKey, TupleOrder)
    ensures Projects(p, clock, comments)
  {
    hide ProjectOne, IdsOf, SortedBy, UniqueBy;
    forall id | id in IdsOf(p.compact) + IdsOf(p.raw) ensures id in KeySet(comments, IdOfComment) {
      ProjectedId(p, id, clock);
      var c := ProjectOne(p.compact, p.raw, id, clock).value;
      assert IsComment(p, clock, c) && IdOfComment(c) == id;
    }
    assert forall c <- comments :: IsComment(p, clock, c) && IdOfComment(c) == c.id;
  }

  /** What sorting the flat list by post, time and identity and filtering it by post gives: the post's own comments. */
  lemma PostGetsItsComments(items: seq<Item>, sorted: seq<Item>, payloads: seq<Payload>, p: Payload, clock: Clock)
    requires p in payloads && Acceptable(p, clock) && Gathers(items, payloads, clock)
    requires Elements(sorted) == Elements(items) && UniqueBy(sorted, ItemKey) && SortedBy(sorted, ItemKey, TupleOrder)
    ensures Projects(p, clock, OfPost(sorted, p.postRef))
  {
    hide IsComment, ProjectOne, IdsOf, SortedBy, UniqueBy, OfPost;
    var comments := OfPost(sorted, p.postRef);
    StaysDistinct(items, sorted, ItemKey, ItemId);
    OfPostIsFilter(sorted, p.postRef);
    OfPostIsDistinct(sorted, p.postRef);
    OfPostIsSorted(sorted, p.postRef);
    forall c ensures c in comments <==> IsComment(p, clock, c) {
      assert Item(p.postRef, c) in sorted <==> Item(p.postRef, c) in Elements(sorted);
      assert Item(p.postRef, c) in items <==> Item(p.postRef, c) in Elements(items);
    }
    CommentsAreProjected(p, clock, comments);
  }

  lemma RiskIsSeen(p: Payload, clock: Clock, comments: seq<B.Comment>)
    requires Acceptable(p, clock) && Projects(p, clock, comments)
    ensures (exists c <- comments :: B.Matches(c, B.Risk)) <==> (exists c :: IsComment(p, clock, c) && B.Matches(c, B.Risk))
  {
    hide Acceptable, Projects, IsComment, B.Matches;
    forall c ensures c in comments <==> IsComment(p, clock, c) {
      ProjectedAreComments(p, clock, comments, c);
    }
  }

  /** The loop over the posts, the sorting, and the view by post. */
  method LoadComments(payloads: seq<Payload>, allPass: bool, clock: Clock) returns (report: Result<B.Report>)
    requires UniqueBy(payloads, PostOf)
    ensures report.Ok? <==> AcceptableAll(payloads, clock) && AllowedAll(payloads, allPass, clock)
    ensures report.Ok? ==> IsLoaded(payloads, clock, report.value)
  {
    hide Acceptable, Projects, IsComment, B.Matches, Gathers, SortedBy, TotalOrder, Lexicographic, OfPost;
    var items: seq<Item> := [];
    assert Gathers([], [], clock) by { NothingGathered(clock); }
    for i := 0 to |payloads|
      invariant AcceptableAll(payloads[..i], clock) && AllowedAll(payloads[..i], allPass, clock)
      invariant Gathers(items, payloads[..i], clock)
    {
      var p := payloads[i];
      assert payloads[..i + 1] == payloads[..i] + [p];
      var comments := ProjectComments(p, clock);
      if comments.Err? {
        return Err(comments.code);
      }
      RiskIsSeen(p, clock, comments.value);
      if allPass && exists c <- comments.value :: B.Matches(c, B.Risk) {
        return Err("all_pass_risk_comment");
      }
      forall q | q in payloads[..i] ensures q.postRef != p.postRef {
        var j :| 0 <= j < i && payloads[..i][j] == q;
        assert PostOf(payloads[j]) != PostOf(payloads[i]);
      }
      GathersMore(items, payloads[..i], p, comments.value, clock);
      items := items + ItemsOf(p.postRef, comments.value);
    }
    assert payloads[..|payloads|] == payloads;
    OrdersAreTotal();
    assert UniqueBy(items, ItemKey) by { GatheredKeys(items, payloads, clock); }
    var sorted := SortByKey(items, ItemKey, TupleOrder);
    var posts := PostRefs(payloads);
    forall p | p in payloads ensures Projects(p, clock, OfPost(sorted, p.postRef)) {
      assert Acceptable(p, clock);
      PostGetsItsComments(items, sorted, payloads, p, clock);
    }
    report := Ok(B.Report(posts, map p | p in posts :: OfPost(sorted, p)));
  }

  lemma NothingGathered(clock: Clock)
    ensures Gathers([], [], clock)
  {
  }

  lemma GatheredKeys(items: seq<Item>, payloads: seq<Payload>, clock: Clock)
    requires Gathers(items, payloads, clock)
    ensures UniqueBy(items, ItemKey)
  {
    forall i, j | 0 <= i < j < |items| ensures ItemKey(items[i]) != ItemKey(items[j]) {
      assert ItemId(items[i]) != ItemId(items[j]);
      var a, b := ItemKey(items[i]), ItemKey(items[j]);
      assert a[0] == items[i].postRef && a[2] == items[i].comment.id && b[0] == items[j].postRef && b[2] == items[j].comment.id;
    }
  }

  /** The payload determines the comments and their order. */
  lemma ProjectionIsDetermined(p: Payload, clock: Clock, a: seq<B.Comment>, b: seq<B.Comment>)
    requires Projects(p, clock, a) && Projects(p, clock, b)
    ensures a == b
  {
    hide ProjectOne, IdsOf, SortedBy, TotalOrder, Lexicographic;
    OrdersAreTotal();
    DistinctIdsDistinctKeys(a);
    DistinctIdsDistinctKeys(b);
    forall c ensures c in Elements(a) <==> c in Elements(b) {
      ProjectedAreComments(p, clock, a, c);
      ProjectedAreComments(p, clock, b, c);
    }
    KeyedListingIsUnique(a, b, OrderKey, TupleOrder);
  }

  // ---- what every loaded comment is like ----

  /** The status and level that the loader lets through: a level is unknown only while the audit is not completed. */
  lemma ProjectedLevelIsKnown(compact: seq<RawComment>, raw: seq<RawComment>, id: string, clock: Clock)
    ensures
      var c := ProjectOne(compact, raw, id, clock);
      c.Ok? ==>
        && B.HasKnownLevel(c.value)
        && c.value.auditStatus in ["completed", "failed", "pending", "queued", "unavailable"]
        && (c.value.riskLevel in ["none", "low", "medium", "high"]
             || (c.value.riskLevel == "unavailable" && c.value.auditStatus != "completed"))
  {
    hide ValueOf, Normal, Lower, Candidates;
  }

  lemma {:induction false} TrimmedFrom(s: string)
    ensures forall c <- TrimLeft(s) :: c in s
    ensures forall c <- TrimRight(s) :: c in s
  {
    if s != "" {
      TrimmedFrom(s[1..]);
      TrimmedFrom(s[..|s| - 1]);
    }
  }

  /** An author's name has no carriage return, whatever the payload says. */
  lemma ProjectedAuthorIsPlain(compact: seq<RawComment>, raw: seq<RawComment>, id: string, clock: Clock)
    ensures
      var c := ProjectOne(compact, raw, id, clock);
      c.Ok? ==> '\r' !in c.value.author
  {
    hide Candidates, ValueOf, UnixNewlines, TrimLeft, TrimRight;
    var name := ValueOf(First(Candidates(raw, id)), First(Candidates(compact, id)), (x: RawComment) => x.nickname);
    UnixHasNoReturn(name);
    TrimmedFrom(UnixNewlines(name));
    TrimmedFrom(TrimLeft(UnixNewlines(name)));
    assert '\r' !in Normal(name);
  }

  ghost predicate ShownByOne(c: B.Comment, report: B.Report, postId: string) {
    var risk, noRisk, unknown :=
      c in B.Matching(report, B.Query(postId, B.Risk)), c in B.Matching(report, B.Query(postId, B.NoRisk)),
      c in B.Matching(report, B.Query(postId, B.Unknown));
    (risk || noRisk || unknown) && !(risk && noRisk) && !(risk && unknown) && !(noRisk && unknown)
  }

  /** The three audited filters partition the comments of every post of every loaded report. */
  lemma LoadedFiltersPartition(payloads: seq<Payload>, clock: Clock, report: B.Report, postId: string)
    requires IsLoaded(payloads, clock, report) && postId in report.posts
    ensures
      var all, risk := B.Matching(report, B.Query(postId, B.All)), B.Matching(report, B.Query(postId, B.Risk));
      var noRisk, unknown := B.Matching(report, B.Query(postId, B.NoRisk)), B.Matching(report, B.Query(postId, B.Unknown));
      && all == report.commentsByPost[postId]
      && |risk| + |noRisk| + |unknown| == |all|
      && forall c <- all :: ShownByOne(c, report, postId)
  {
    hide ProjectOne, SortedBy, UniqueBy, IdsOf, B.Select;
    var p :| p in payloads && p.postRef == postId;
    var comments := report.commentsByPost[postId];
    forall c | c in comments ensures B.HasKnownLevel(c) {
      ProjectedLevelIsKnown(p.compact, p.raw, c.id, clock);
    }
    B.FiltersPartitionIff(comments);
    B.SelectIsFilter(comments, B.Risk);
    B.SelectIsFilter(comments, B.NoRisk);
    B.SelectIsFilter(comments, B.Unknown);
  }

  lemma {:induction false} SelectIsDistinct(comments: seq<B.Comment>, filter: B.RiskFilter)
    requires UniqueBy(comments, IdOfComment)
    ensures UniqueBy(B.Select(comments, filter), IdOfComment)
  {
    hide B.Matches;
    if comments != [] {
      var rest := B.Select(comments[1..], filter);
      SelectIsDistinct(comments[1..], filter);
      B.SelectIsFilter(comments[1..], filter);
      forall k | 0 <= k < |rest| ensures IdOfComment(rest[k]) != IdOfComment(comments[0]) {
        assert rest[k] in rest;
        var i :| 0 <= i < |comments[1..]| && comments[1..][i] == rest[k];
        assert comments[i + 1] == rest[k];
      }
    }
  }

  /** What a query pages through has every comment of the post that matches, under an identity of its own. */
  lemma LoadedMatchesAreDistinct(payloads: seq<Payload>, clock: Clock, report: B.Report, q: B.Query)
    requires IsLoaded(payloads, clock, report) && q.postId in report.posts
    ensures UniqueBy(B.Matching(report, q), IdOfComment)
    ensures forall p, c | p in payloads && p.postRef == q.postId ::
      c in B.Matching(report, q) <==> IsComment(p, clock, c) && B.Matches(c, q.filter)
  {
    hide ProjectOne, SortedBy, IdsOf, B.Select, B.Matches, UniqueBy;
    var p :| p in payloads && p.postRef == q.postId;
    SelectIsDistinct(report.commentsByPost[q.postId], q.filter);
    B.SelectIsFilter(report.commentsByPost[q.postId], q.filter);
    forall p, c | p in payloads && p.postRef == q.postId
      ensures c in report.commentsByPost[q.postId] <==> IsComment(p, clock, c)
    {
      ProjectedAreComments(p, clock, report.commentsByPost[q.postId], c);
    }
  }
}
