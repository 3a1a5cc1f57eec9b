/**
  Matching an old tool result against a fresh one up to a renaming of opaque tokens (`compare` in
  `restore_legacy_transcript`), and carrying the renaming out (`_replace_tokens`).
*/
module TranscriptMatcher {
  import opened Wrappers

  datatype Field = Field(key: string, value: Json)

  /** Decoded JSON; an object keeps the order of its fields. */
  datatype Json =
    | Null
    | Bool(b: bool)
    | Num(n: real)
    | Str(s: string)
    | Arr(items: seq<Json>)
    | Obj(fields: seq<Field>)

  type Substitution = map<string, string>

  function Keys(fields: seq<Field>): set<string> {
    set f <- fields :: f.key
  }

  function Get(fields: seq<Field>, key: string): (v: Json)
    requires key in Keys(fields)
    ensures exists f <- fields :: f.key == key && f.value == v
  {
    if fields[0].key == key then fields[0].value
    else
      assert Keys(fields) == {fields[0].key} + Keys(fields[1..]);
      Get(fields[1..], key)
  }

  function NumberOf(j: Json): Option<real> {
    match j
    case Bool(b) => Some(if b then 1.0 else 0.0)
    case Num(n) => Some(n)
    case _ => None
  }

  /** Python's `==`: a boolean equals the number it stands for, and field order does not matter. */
  predicate Equal(left: Json, right: Json) {
    match (left, right)
    case (Null, Null) => true
    case (Str(s), Str(t)) => s == t
    case (Arr(ls), Arr(rs)) => |ls| == |rs| && forall i | 0 <= i < |ls| :: Equal(ls[i], rs[i])
    case (Obj(ls), Obj(rs)) =>
      Keys(ls) == Keys(rs) && forall f | f in ls :: f.key in Keys(rs) && Equal(f.value, Get(rs, f.key))
    case _ => NumberOf(left).Some? && NumberOf(left) == NumberOf(right)
  }

  /** Outside lists and objects only equal values of one kind are equal, but true and false are also 1 and 0. */
  lemma LeavesEqualIff(left: Json, right: Json)
    requires !left.Arr? && !left.Obj?
    ensures Equal(left, right) <==>
      || left == right
      || (left.Bool? && right.Num? && right.n == (if left.b then 1.0 else 0.0))
      || (left.Num? && right.Bool? && left.n == (if right.b then 1.0 else 0.0))
  {
  }

  // ---- the algorithm ----

  /** `compare`: the substitution proposed so far, extended; nothing when the trees do not match. */
  function Compare(left: Json, right: Json, tokens: set<string>, proposed: Substitution): Option<Substitution>
    decreases left, 1, 0
  {
    if left.Str? && right.Str? && right.s in tokens then
      if left.s in proposed && proposed[left.s] != right.s then None
      else Some(proposed[left.s := right.s])
    else if left.Obj? && right.Obj? then
      if Keys(left.fields) != Keys(right.fields) then None
      else CompareFields(left, left.fields, right.fields, tokens, proposed)
    else if left.Arr? && right.Arr? then
      if |left.items| != |right.items| then None
      else CompareItems(left, left.items, right.items, tokens, proposed)
    else if Equal(left, right) then Some(proposed)
    else None
  }

  function CompareItems(ghost tree: Json, ls: seq<Json>, rs: seq<Json>, tokens: set<string>, proposed: Substitution): Option<Substitution>
    requires |ls| == |rs| && forall l <- ls :: l < tree
    decreases tree, 0, |ls|
  {
    if ls == [] then Some(proposed)
    else
      assert ls[0] in ls && forall l <- ls[1..] :: l in ls;
      var first := Compare(ls[0], rs[0], tokens, proposed);
      if first.None? then None else CompareItems(tree, ls[1..], rs[1..], tokens, first.value)
  }

  function CompareFields(ghost tree: Json, ls: seq<Field>, rs: seq<Field>, tokens: set<string>, proposed: Substitution): Option<Substitution>
    requires Keys(ls) <= Keys(rs) && forall l <- ls :: l.value < tree
    decreases tree, 0, |ls|
  {
    if ls == [] then Some(proposed)
    else
      assert ls[0] in ls && Keys(ls) == {ls[0].key} + Keys(ls[1..]);
      var first := Compare(ls[0].value, Get(rs, ls[0].key), tokens, proposed);
      if first.None? then None else CompareFields(tree, ls[1..], rs, tokens, first.value)
  }

  // ---- the specification ----

  /** One renaming of strings takes `left` to `right`: tokens are renamed, all else is equal. */
  predicate Matches(f: string -> string, left: Json, right: Json, tokens: set<string>) {
    if left.Str? && right.Str? && right.s in tokens then f(left.s) == right.s
    else if left.Obj? && right.Obj? then
      && Keys(left.fields) == Keys(right.fields)
      && forall x | x in left.fields :: x.key in Keys(right.fields) && Matches(f, x.value, Get(right.fields, x.key), tokens)
    else if left.Arr? && right.Arr? then
      && |left.items| == |right.items|
      && forall i | 0 <= i < |left.items| :: Matches(f, left.items[i], right.items[i], tokens)
    else Equal(left, right)
  }

  /** The strings of `left` that stand where `right` has an issued token. */
  function Visited(left: Json, right: Json, tokens: set<string>): set<string> {
    if left.Str? && right.Str? && right.s in tokens then {left.s}
    else if left.Obj? && right.Obj? then
      set x, s | x in left.fields && x.key in Keys(right.fields) && s in Visited(x.value, Get(right.fields, x.key), tokens) :: s
    else if left.Arr? && right.Arr? then
      set i, s | 0 <= i < |left.items| && i < |right.items| && s in Visited(left.items[i], right.items[i], tokens) :: s
    else {}
  }

  predicate Agrees(f: string -> string, p: Substitution) {
    forall k <- p :: f(k) == p[k]
  }

  function AsFunction(p: Substitution): string -> string {
    k => if k in p then p[k] else k
  }

  predicate MatchesItems(f: string -> string, ls: seq<Json>, rs: seq<Json>, tokens: set<string>) {
    |ls| == |rs| && forall i | 0 <= i < |ls| :: Matches(f, ls[i], rs[i], tokens)
  }

  predicate MatchesFields(f: string -> string, ls: seq<Field>, rs: seq<Field>, tokens: set<string>) {
    forall x | x in ls :: x.key in Keys(rs) && Matches(f, x.value, Get(rs, x.key), tokens)
  }

  function VisitedItems(ls: seq<Json>, rs: seq<Json>, tokens: set<string>): set<string> {
    set i, s | 0 <= i < |ls| && i < |rs| && s in Visited(ls[i], rs[i], tokens) :: s
  }

  function VisitedFields(ls: seq<Field>, rs: seq<Field>, tokens: set<string>): set<string> {
    set x, s | x in ls && x.key in Keys(rs) && s in Visited(x.value, Get(rs, x.key), tokens) :: s
  }

  /**
    What the result of a comparison says about one renaming: it fits the trees and the substitution
    proposed before exactly when the comparison succeeds and it fits the substitution afterwards.
  */
  ghost predicate Decides(f: string -> string, fits: bool, before: Substitution, after: Option<Substitution>) {
    (Agrees(f, before) && fits) <==> (after.Some? && Agrees(f, after.value))
  }

  ghost predicate Adds(before: Substitution, after: Option<Substitution>, visited: set<string>) {
    after.Some? ==> after.value.Keys == before.Keys + visited
  }

  lemma {:induction false} CompareDecides(f: string -> string, left: Json, right: Json, tokens: set<string>, proposed: Substitution)
    ensures Decides(f, Matches(f, left, right, tokens), proposed, Compare(left, right, tokens, proposed))
    ensures Adds(proposed, Compare(left, right, tokens, proposed), Visited(left, right, tokens))
    decreases left, 1, 0
  {
    if left.Str? && right.Str? && right.s in tokens {
      if left.s in proposed && proposed[left.s] == right.s {
        assert proposed[left.s := right.s] == proposed;
      }
    } else if left.Obj? && right.Obj? {
      if Keys(left.fields) == Keys(right.fields) {
        FieldsDecide(f, left, left.fields, right.fields, tokens, proposed);
      }
    } else if left.Arr? && right.Arr? {
      if |left.items| == |right.items| {
        ItemsDecide(f, left, left.items, right.items, tokens, proposed);
      }
    }
  }

  lemma {:induction false} ItemsDecide(f: string -> string, tree: Json, ls: seq<Json>, rs: seq<Json>, tokens: set<string>, proposed: Substitution)
    requires |ls| == |rs| && forall l <- ls :: l < tree
    ensures Decides(f, MatchesItems(f, ls, rs, tokens), proposed, CompareItems(tree, ls, rs, tokens, proposed))
    ensures Adds(proposed, CompareItems(tree, ls, rs, tokens, proposed), VisitedItems(ls, rs, tokens))
    decreases tree, 0, |ls|
  {
    if ls != [] {
      assert ls[0] in ls && forall l <- ls[1..] :: l in ls;
      CompareDecides(f, ls[0], rs[0], tokens, proposed);
      var first := Compare(ls[0], rs[0], tokens, proposed);
      assert MatchesItems(f, ls, rs, tokens) <==>
        Matches(f, ls[0], rs[0], tokens) && MatchesItems(f, ls[1..], rs[1..], tokens) by {
        assert forall i | 1 <= i < |ls| :: ls[i] == ls[1..][i - 1] && rs[i] == rs[1..][i - 1];
      }
      VisitedFirstItem(ls, rs, tokens);
      if first.Some? {
        ItemsDecide(f, tree, ls[1..], rs[1..], tokens, first.value);
      }
    }
  }

  lemma VisitedFirstItem(ls: seq<Json>, rs: seq<Json>, tokens: set<string>)
    requires ls != [] && |ls| == |rs|
    ensures VisitedItems(ls, rs, tokens) == Visited(ls[0], rs[0], tokens) + VisitedItems(ls[1..], rs[1..], tokens)
  {
    forall i, s | 0 <= i < |ls| && s in Visited(ls[i], rs[i], tokens)
      ensures s in Visited(ls[0], rs[0], tokens) + VisitedItems(ls[1..], rs[1..], tokens)
    {
      if i > 0 {
        assert ls[i] == ls[1..][i - 1] && rs[i] == rs[1..][i - 1];
      }
    }
  }

  lemma {:induction false} FieldsDecide(f: string -> string, tree: Json, ls: seq<Field>, rs: seq<Field>, tokens: set<string>, proposed: Substitution)
    requires Keys(ls) <= Keys(rs) && forall l <- ls :: l.value < tree
    ensures Decides(f, MatchesFields(f, ls, rs, tokens), proposed, CompareFields(tree, ls, rs, tokens, proposed))
    ensures Adds(proposed, CompareFields(tree, ls, rs, tokens, proposed), VisitedFields(ls, rs, tokens))
    decreases tree, 0, |ls|
  {
    hide Matches, Compare, Visited, Get, VisitedFields, MatchesFields, Decides, Adds;
    if ls == [] {
      NoFields(f, rs, tokens, proposed);
    } else {
      assert ls[0] in ls && Keys(ls) == {ls[0].key} + Keys(ls[1..]) && forall l <- ls[1..] :: l in ls;
      var first := Compare(ls[0].value, Get(rs, ls[0].key), tokens, proposed);
      CompareDecides(f, ls[0].value, Get(rs, ls[0].key), tokens, proposed);
      FirstField(f, ls, rs, tokens);
      var all := CompareFields(tree, ls, rs, tokens, proposed);
      var fits1, fits2 := Matches(f, ls[0].value, Get(rs, ls[0].key), tokens), MatchesFields(f, ls[1..], rs, tokens);
      var visited1, visited2 := Visited(ls[0].value, Get(rs, ls[0].key), tokens), VisitedFields(ls[1..], rs, tokens);
      if first.Some? {
        FieldsDecide(f, tree, ls[1..], rs, tokens, first.value);
        InSequence(f, fits1, fits2, proposed, first.value, all, visited1, visited2);
      } else {
        StopsThere(f, fits1, fits2, proposed, visited1 + visited2);
      }
    }
  }

  lemma NoFields(f: string -> string, rs: seq<Field>, tokens: set<string>, proposed: Substitution)
    ensures Decides(f, MatchesFields(f, [], rs, tokens), proposed, Some(proposed))
    ensures Adds(proposed, Some(proposed), VisitedFields([], rs, tokens))
  {
  }

  lemma InSequence(f: string -> string, fits1: bool, fits2: bool, before: Substitution, between: Substitution,
                   after: Option<Substitution>, visited1: set<string>, visited2: set<string>)
    requires Decides(f, fits1, before, Some(between)) && Decides(f, fits2, between, after)
    requires Adds(before, Some(between), visited1) && Adds(between, after, visited2)
    ensures Decides(f, fits1 && fits2, before, after) && Adds(before, after, visited1 + visited2)
  {
  }

  lemma StopsThere(f: string -> string, fits1: bool, fits2: bool, before: Substitution, visited: set<string>)
    requires Decides(f, fits1, before, None)
    ensures Decides(f, fits1 && fits2, before, None) && Adds(before, None, visited)
  {
  }

  lemma FirstField(f: string -> string, ls: seq<Field>, rs: seq<Field>, tokens: set<string>)
    requires ls != [] && ls[0].key in Keys(rs)
    ensures MatchesFields(f, ls, rs, tokens) <==>
      Matches(f, ls[0].value, Get(rs, ls[0].key), tokens) && MatchesFields(f, ls[1..], rs, tokens)
    ensures VisitedFields(ls, rs, tokens) ==
      Visited(ls[0].value, Get(rs, ls[0].key), tokens) + VisitedFields(ls[1..], rs, tokens)
  {
    hide Matches, Visited, Get;
    assert ls == [ls[0]] + ls[1..];
  }

  /**
    The matcher is sound and complete: it succeeds exactly when one renaming of strings takes the old
    result to the fresh one, and what it returns is that renaming on the strings it visited.
  */
  lemma MatcherIsExact(left: Json, right: Json, tokens: set<string>)
    ensures
      var found := Compare(left, right, tokens, map[]);
      && (found.Some? <==> exists f: string -> string :: Matches(f, left, right, tokens))
      && (found.Some? ==>
            && found.value.Keys == Visited(left, right, tokens)
            && forall f: string -> string ::
                 Matches(f, left, right, tokens) <==> forall k <- found.value :: f(k) == found.value[k])
  {
    hide Compare, Matches, Visited;
    var found := Compare(left, right, tokens, map[]);
    forall f: string -> string
      ensures Decides(f, Matches(f, left, right, tokens), map[], found)
    {
      CompareDecides(f, left, right, tokens, map[]);
    }
    CompareDecides(AsFunction(map[]), left, right, tokens, map[]);
    if found.Some? {
      assert Agrees(AsFunction(found.value), found.value);
      assert Decides(AsFunction(found.value), Matches(AsFunction(found.value), left, right, tokens), map[], found);
    }
  }

  // ---- carrying the renaming out ----

  /** `_replace_tokens`: every string that is an alias becomes what it stands for; keys stay. */
  function ReplaceTokens(value: Json, aliases: Substitution): Json {
    match value
    case Str(s) => Str(if s in aliases then aliases[s] else s)
    case Arr(items) => Arr(seq(|items|, i requires 0 <= i < |items| => ReplaceTokens(items[i], aliases)))
    case Obj(fields) =>
      Obj(seq(|fields|, i requires 0 <= i < |fields| => Field(fields[i].key, ReplaceTokens(fields[i].value, aliases))))
    case _ => value
  }

  /** No string that the matcher compared as plain text is renamed by the substitution. */
  predicate PlainTextKept(left: Json, right: Json, tokens: set<string>, p: Substitution) {
    if left.Str? && right.Str? && right.s in tokens then true
    else if left.Obj? && right.Obj? then
      forall x | x in left.fields && x.key in Keys(right.fields) :: PlainTextKept(x.value, Get(right.fields, x.key), tokens, p)
    else if left.Arr? && right.Arr? then
      forall i | 0 <= i < |left.items| && i < |right.items| :: PlainTextKept(left.items[i], right.items[i], tokens, p)
    else left.Str? && left.s in p ==> p[left.s] == left.s
  }

  ghost predicate FieldFits(x: Field, rs: seq<Field>, tokens: set<string>, p: Substitution) {
    && x.key in Keys(rs)
    && (Equal(ReplaceTokens(x.value, p), Get(rs, x.key)) <==> PlainTextKept(x.value, Get(rs, x.key), tokens, p))
  }

  lemma FieldsFit(ls: seq<Field>, rs: seq<Field>, tokens: set<string>, p: Substitution)
    requires Keys(ls) == Keys(rs) && forall x <- ls :: FieldFits(x, rs, tokens, p)
    ensures Equal(ReplaceTokens(Obj(ls), p), Obj(rs)) <==> PlainTextKept(Obj(ls), Obj(rs), tokens, p)
  {
    var renamed := ReplaceTokens(Obj(ls), p).fields;
    KeysKept(ls, p);
    if Equal(Obj(renamed), Obj(rs)) {
      forall x | x in ls ensures PlainTextKept(x.value, Get(rs, x.key), tokens, p) {
        var i :| 0 <= i < |ls| && ls[i] == x;
        assert renamed[i] == Field(x.key, ReplaceTokens(x.value, p)) && renamed[i] in renamed;
        assert FieldFits(x, rs, tokens, p);
      }
    }
    if PlainTextKept(Obj(ls), Obj(rs), tokens, p) {
      forall y | y in renamed ensures y.key in Keys(rs) && Equal(y.value, Get(rs, y.key)) {
        var i :| 0 <= i < |renamed| && renamed[i] == y;
        assert y == Field(ls[i].key, ReplaceTokens(ls[i].value, p)) && ls[i] in ls;
        assert FieldFits(ls[i], rs, tokens, p);
      }
    }
  }

  lemma {:induction false} ReplacedFits(left: Json, right: Json, tokens: set<string>, p: Substitution)
    requires Matches(AsFunction(p), left, right, tokens) && Visited(left, right, tokens) <= p.Keys
    ensures Equal(ReplaceTokens(left, p), right) <==> PlainTextKept(left, right, tokens, p)
  {
    if left.Obj? && right.Obj? {
      forall x | x in left.fields
        ensures FieldFits(x, right.fields, tokens, p)
      {
        ReplacedFits(x.value, Get(right.fields, x.key), tokens, p);
      }
      FieldsFit(left.fields, right.fields, tokens, p);
    } else if left.Arr? && right.Arr? {
      forall i | 0 <= i < |left.items|
        ensures Equal(ReplaceTokens(left.items[i], p), right.items[i])
           <==> PlainTextKept(left.items[i], right.items[i], tokens, p)
      {
        ReplacedFits(left.items[i], right.items[i], tokens, p);
      }
    }
  }

  lemma KeysKept(fields: seq<Field>, p: Substitution)
    ensures ReplaceTokens(Obj(fields), p).Obj? && Keys(ReplaceTokens(Obj(fields), p).fields) == Keys(fields)
  {
    var renamed := ReplaceTokens(Obj(fields), p).fields;
    forall k | k in Keys(fields) ensures k in Keys(renamed) {
      var i :| 0 <= i < |fields| && fields[i].key == k;
      assert renamed[i].key == k && renamed[i] in renamed;
    }
    forall k | k in Keys(renamed) ensures k in Keys(fields) {
      var i :| 0 <= i < |renamed| && renamed[i].key == k;
      assert fields[i].key == k && fields[i] in fields;
    }
  }

  /**
    After a match, renaming the old result gives the fresh one exactly when no string that was
    compared as plain text happens to be one of the renamed tokens.
  */
  lemma RenamingReproducesIff(left: Json, right: Json, tokens: set<string>)
    requires Compare(left, right, tokens, map[]).Some?
    ensures
      var p := Compare(left, right, tokens, map[]).value;
      Equal(ReplaceTokens(left, p), right) <==> PlainTextKept(left, right, tokens, p)
  {
    MatcherIsExact(left, right, tokens);
    var p := Compare(left, right, tokens, map[]).value;
    assert Matches(AsFunction(p), left, right, tokens);
    ReplacedFits(left, right, tokens, p);
  }
}
