/**
  The lists that the account tools page through: a list of accounts is enumerated to its end, a list of
  occurrences exactly if no comment in it stands under a post of unknown author.
*/
module AccountListing {
  import opened Wrappers
  import opened AccountNavigation
  import opened AccountActivityRefs
  import P = AccountPaging

  /** What `ordered_occurrences` selects: an account's occurrences in one role, perhaps those on a target's posts. */
  predicate Selected(v: View, account: string, comments: bool, target: Option<string>, id: string) {
    && id in v.occurrences && v.occurrences[id].account == account && v.occurrences[id].isComment == comments
    && (target.Some? ==> v.occurrences[id].parentAuthor == target.value)
  }

  /** The list has what is selected, in some order. */
  ghost predicate IsListing(v: View, account: string, comments: bool, target: Option<string>, ids: seq<string>) {
    forall id :: id in ids <==> Selected(v, account, comments, target, id)
  }

  /** `occurrence_preview` of a listed occurrence. */
  function Previews(v: View): P.Projection {
    id => id in v.occurrences && Preview(v, v.occurrences[id]).Ok?
  }

  /** `_account_card` of a listed account. */
  function Cards(v: View): P.Projection {
    id => HasName(v, id)
  }

  /** Every listed comment has a post of known author. */
  ghost predicate AllKnown(v: View, ids: seq<string>) {
    forall id <- ids :: id in v.occurrences && AuthorKnown(v.occurrences[id])
  }

  /** Enough pages, of any sizes. */
  ghost predicate Enough(visits: seq<P.Visit>, n: nat) {
    visits != [] && P.TotalLimit(visits) >= n && forall v <- visits :: v.limit >= 1
  }

  lemma PreviewsIff(v: View, account: string, comments: bool, target: Option<string>, ids: seq<string>)
    requires WellFormed(v) && IsListing(v, account, comments, target, ids)
    ensures P.AllShow(ids, Previews(v)) <==> AllKnown(v, ids)
  {
    forall id | id in ids ensures Previews(v)(id) <==> AuthorKnown(v.occurrences[id]) {
      assert Selected(v, account, comments, target, id) && StoredOk(v, v.occurrences[id]);
    }
  }

  /**
    `_list_account_occurrences`: following the cursors, with retries and other calls in between, shows
    every selected occurrence exactly once and in order if and only if no comment among them stands
    under a post of unknown author; else it never gets past the first such comment.
  */
  lemma OccurrencesEnumeratedIff(v: View, account: string, comments: bool, target: Option<string>, ids: seq<string>,
                                 reg: Registry, sessionId: string, query: Query, visits: seq<P.Visit>)
    requires WellFormed(v) && IsListing(v, account, comments, target, ids)
    requires Inv(reg) && sessionId in reg.scopes && Enough(visits, |ids|)
    requires P.SameGeneration(reg, P.Walk(reg, sessionId, query, ids, Previews(v), visits, None).reg, sessionId)
    ensures
      var walked := P.Walk(reg, sessionId, query, ids, Previews(v), visits, None);
      && (walked.finished <==> AllKnown(v, ids)) && (walked.items == ids <==> AllKnown(v, ids))
      && |walked.items| <= P.Barrier(ids, Previews(v), 0) && walked.items == ids[..|walked.items|]
  {
    hide Inv, WellFormed, P.Walk, P.SameGeneration, P.AllShow, AllKnown, IsListing, P.Barrier, Previews;
    P.CursorsEnumerateAllIff(reg, sessionId, query, ids, Previews(v), visits);
    PreviewsIff(v, account, comments, target, ids);
  }

  /** Posts, and comments on the posts of a shown target, are always enumerated to the end. */
  lemma PostsAndTargetsAreEnumerated(v: View, account: string, comments: bool, target: Option<string>, ids: seq<string>,
                                     reg: Registry, sessionId: string, query: Query, visits: seq<P.Visit>)
    requires WellFormed(v) && IsListing(v, account, comments, target, ids)
    requires !comments || (target.Some? && IsTarget(v, account, target.value))
    requires Inv(reg) && sessionId in reg.scopes && Enough(visits, |ids|)
    requires P.SameGeneration(reg, P.Walk(reg, sessionId, query, ids, Previews(v), visits, None).reg, sessionId)
    ensures
      var walked := P.Walk(reg, sessionId, query, ids, Previews(v), visits, None);
      walked.finished && walked.items == ids
  {
    hide Inv, P.Walk, P.SameGeneration, WellFormed, Previews, P.Barrier;
    forall id | id in ids ensures id in v.occurrences && AuthorKnown(v.occurrences[id]) {
      assert Selected(v, account, comments, target, id);
    }
    OccurrencesEnumeratedIff(v, account, comments, target, ids, reg, sessionId, query, visits);
  }

  /** The accounts that the report queries list are those of occurrences: their pages are never refused. */
  lemma AccountsAreEnumerated(v: View, ids: seq<string>, reg: Registry, sessionId: string, query: Query, visits: seq<P.Visit>)
    requires WellFormed(v) && forall id <- ids :: id != "" && exists o <- v.occurrences :: v.occurrences[o].account == id
    requires Inv(reg) && sessionId in reg.scopes && Enough(visits, |ids|)
    requires P.SameGeneration(reg, P.Walk(reg, sessionId, query, ids, Cards(v), visits, None).reg, sessionId)
    ensures
      var walked := P.Walk(reg, sessionId, query, ids, Cards(v), visits, None);
      walked.finished && !walked.refused && walked.items == ids
  {
    hide Inv, P.Walk, P.SameGeneration;
    forall id | id in ids ensures Cards(v)(id) {
      var o :| o in v.occurrences && v.occurrences[o].account == id;
      assert StoredOk(v, v.occurrences[o]);
    }
    P.CursorsEnumerateAll(reg, sessionId, query, ids, Cards(v), visits);
  }
}
