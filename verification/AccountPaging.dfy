/**
  Pages over a frozen, ordered list of ids (`_list_account_occurrences`, and the tools over
  `_query_page`): what any mix of page sizes, with other calls and retries in between, shows of it. A
  page is cut first and its items are projected after that, which can fail.
*/
module AccountPaging {
  import opened Wrappers
  import opened Arguments
  import opened AccountActivityRefs

  datatype PageResult = PageResult(items: seq<string>, offset: nat, next: Option<string>)

  /** The cut of a page: the slice at the cursor's offset, and a cursor for what follows it. */
  function Page(reg: Registry, sessionId: string, query: Query, ids: seq<string>, limit: nat,
                cursor: Option<string>): (Registry, Result<PageResult>)
  {
    var resolved := if cursor.None? then Err("") else ResolveCursor(reg, sessionId, cursor.value, query, ids);
    if sessionId !in reg.scopes then (reg, Err("investigation_scope_unbound"))
    else if cursor.Some? && resolved.Err? then (reg, Err(resolved.code))
    else
      var offset := if cursor.Some? then resolved.value.nextOffset else 0;
      var selected := if offset <= |ids| then ids[offset..Min(offset + limit, |ids|)] else [];
      var next := offset + |selected|;
      if next < |ids| then
        var (reg', token) := IssueCursor(reg, reg.scopes[sessionId], query, ids, next);
        (reg', Ok(PageResult(selected, offset, Some(token))))
      else (reg, Ok(PageResult(selected, offset, None)))
  }

  /** What else happens in the process, and then one call for the next page. */
  datatype Visit = Visit(between: seq<Step>, limit: nat)

  /** Whether the projection of an item succeeds. */
  type Projection = string -> bool

  /** One call: the cut, and the projection of its items; when that fails the cursor is issued and never shown. */
  function ShowPage(reg: Registry, sessionId: string, query: Query, ids: seq<string>, shows: Projection, limit: nat,
                    cursor: Option<string>): (Registry, Result<PageResult>)
  {
    var (reg', page) := Page(reg, sessionId, query, ids, limit, cursor);
    if page.Ok? && !forall id | id in page.value.items :: shows(id) then (reg', Err("unknown_account")) else (reg', page)
  }

  datatype Walked = Walked(reg: Registry, items: seq<string>, finished: bool, refused: bool)

  /** Following the cursors, with a retry after every refusal, until there is none or the visits run out. */
  function Walk(reg: Registry, sessionId: string, query: Query, ids: seq<string>, shows: Projection, visits: seq<Visit>,
                cursor: Option<string>): Walked
    decreases |visits|
  {
    if visits == [] then Walked(reg, [], false, false)
    else
      var (reg', page) := ShowPage(Run(reg, visits[0].between), sessionId, query, ids, shows, visits[0].limit, cursor);
      if page.Err? then Walk(reg', sessionId, query, ids, shows, visits[1..], cursor).(refused := true)
      else if page.value.next.None? then Walked(reg', page.value.items, true, false)
      else
        var rest := Walk(reg', sessionId, query, ids, shows, visits[1..], page.value.next);
        rest.(items := page.value.items + rest.items)
  }

  function TotalLimit(visits: seq<Visit>): nat {
    if visits == [] then 0 else visits[0].limit + TotalLimit(visits[1..])
  }

  /** The cursor of a walk leads to this offset; without one the walk begins. */
  ghost predicate LeadsTo(reg: Registry, sessionId: string, query: Query, ids: seq<string>, cursor: Option<string>, offset: nat) {
    && sessionId in reg.scopes
    && offset <= |ids|
    && if cursor.None? then offset == 0
       else
         && cursor.value in reg.cursors
         && reg.cursors[cursor.value]
              == Cursor(cursor.value, sessionId, reg.scopes[sessionId].generation, query, ids, offset)
  }

  /** The session's generation did not change from `reg` to `reg'`. */
  ghost predicate SameGeneration(reg: Registry, reg': Registry, sessionId: string) {
    && sessionId in reg.scopes && sessionId in reg'.scopes
    && reg.scopes[sessionId].generation == reg'.scopes[sessionId].generation
  }

  lemma PageSlices(reg: Registry, sessionId: string, query: Query, ids: seq<string>, limit: nat,
                   cursor: Option<string>, offset: nat)
    requires Inv(reg) && LeadsTo(reg, sessionId, query, ids, cursor, offset) && limit >= 1
    ensures
      var (reg', page) := Page(reg, sessionId, query, ids, limit, cursor);
      && Inv(reg') && Grows(reg, reg') && SameGeneration(reg, reg', sessionId)
      && page.Ok?
      && page.value.offset == offset
      && page.value.items == ids[offset..Min(offset + limit, |ids|)]
      && (page.value.next.None? <==> offset + limit >= |ids|)
      && (page.value.next.Some? ==> LeadsTo(reg', sessionId, query, ids, page.value.next, offset + limit))
  {
    hide Inv, Grows, Valid;
    GrowsFromItself(reg);
    ScopeIsItsSessions(reg, sessionId);
    CursorKeepsInv(reg, sessionId, query, ids, offset + limit);
  }

  lemma StillLeads(reg: Registry, reg': Registry, sessionId: string, query: Query, ids: seq<string>,
                   cursor: Option<string>, offset: nat)
    requires Grows(reg, reg') && LeadsTo(reg, sessionId, query, ids, cursor, offset) && SameGeneration(reg, reg', sessionId)
    ensures LeadsTo(reg', sessionId, query, ids, cursor, offset)
  {
  }

  lemma NoWayBack(a: Registry, b: Registry, c: Registry, sessionId: string)
    requires Grows(a, b) && Grows(b, c) && SameGeneration(a, c, sessionId)
    ensures SameGeneration(a, b, sessionId) && SameGeneration(b, c, sessionId)
  {
  }

  /** The cursor with which a walk goes on after a page. */
  function Onward(page: Result<PageResult>, cursor: Option<string>): Option<string> {
    if page.Err? then cursor else page.value.next
  }

  predicate GoesOn(page: Result<PageResult>) {
    page.Err? || page.value.next.Some?
  }

  lemma {:induction false} WalkGrows(reg: Registry, sessionId: string, query: Query, ids: seq<string>, shows: Projection,
                                     visits: seq<Visit>, cursor: Option<string>)
    requires Inv(reg)
    ensures Inv(Walk(reg, sessionId, query, ids, shows, visits, cursor).reg)
    ensures Grows(reg, Walk(reg, sessionId, query, ids, shows, visits, cursor).reg)
    decreases |visits|
  {
    hide Inv, Grows, ShowPage, Run;
    if visits == [] {
      GrowsFromItself(reg);
    } else {
      var reg1 := Run(reg, visits[0].between);
      RunKeepsInv(reg, visits[0].between);
      AnyPageGrows(reg1, sessionId, query, ids, shows, visits[0].limit, cursor);
      var (reg2, page) := ShowPage(reg1, sessionId, query, ids, shows, visits[0].limit, cursor);
      GrowsTransitive(reg, reg1, reg2);
      if GoesOn(page) {
        WalkGrows(reg2, sessionId, query, ids, shows, visits[1..], Onward(page, cursor));
        GrowsTransitive(reg, reg2, Walk(reg2, sessionId, query, ids, shows, visits[1..], Onward(page, cursor)).reg);
      }
    }
  }

  lemma AnyPageGrows(reg: Registry, sessionId: string, query: Query, ids: seq<string>, shows: Projection, limit: nat,
                     cursor: Option<string>)
    requires Inv(reg)
    ensures Inv(ShowPage(reg, sessionId, query, ids, shows, limit, cursor).0)
    ensures Grows(reg, ShowPage(reg, sessionId, query, ids, shows, limit, cursor).0)
  {
    hide Inv, Grows, IssueCursor;
    GrowsFromItself(reg);
    if sessionId in reg.scopes {
      forall next: nat
        ensures Inv(IssueCursor(reg, reg.scopes[sessionId], query, ids, next).0)
             && Grows(reg, IssueCursor(reg, reg.scopes[sessionId], query, ids, next).0)
      {
        CursorKeepsInv(reg, sessionId, query, ids, next);
      }
    }
  }

  // ---- how far a walk gets ----

  /** The first place from `offset` on whose item is not shown, or the end. */
  function Barrier(ids: seq<string>, shows: Projection, offset: nat): (end: nat)
    requires offset <= |ids|
    ensures offset <= end <= |ids|
    ensures forall i | offset <= i < end :: shows(ids[i])
    ensures end < |ids| ==> !shows(ids[end])
    decreases |ids| - offset
  {
    if offset < |ids| && shows(ids[offset]) then Barrier(ids, shows, offset + 1) else offset
  }

  lemma {:induction false} SameBarrier(ids: seq<string>, shows: Projection, offset: nat, later: nat)
    requires offset <= |ids| && offset <= later <= Barrier(ids, shows, offset)
    ensures Barrier(ids, shows, later) == Barrier(ids, shows, offset)
    decreases later - offset
  {
    if offset < later {
      SameBarrier(ids, shows, offset + 1, later);
    }
  }

  /** What a walk from this offset shows: never past the barrier, and everything when there is none. */
  ghost predicate Stretch(walked: Walked, ids: seq<string>, shows: Projection, offset: nat, total: nat, visited: bool)
    requires offset <= |ids|
  {
    var barrier := Barrier(ids, shows, offset);
    && offset + |walked.items| <= barrier && walked.items == ids[offset..offset + |walked.items|]
    && (barrier == |ids| ==>
          && !walked.refused && walked.items == ids[offset..Min(offset + total, |ids|)]
          && (walked.finished <==> visited && offset + total >= |ids|))
    && (barrier < |ids| ==> !walked.finished && (offset + total > barrier ==> walked.refused))
  }

  /** A page is shown exactly if it ends before the barrier. */
  lemma PageShownIff(reg: Registry, sessionId: string, query: Query, ids: seq<string>, shows: Projection, limit: nat,
                     cursor: Option<string>, offset: nat)
    requires Inv(reg) && LeadsTo(reg, sessionId, query, ids, cursor, offset) && limit >= 1
    ensures
      var (reg', page) := ShowPage(reg, sessionId, query, ids, shows, limit, cursor);
      && SameGeneration(reg, reg', sessionId)
      && (page.Ok? <==> Min(offset + limit, |ids|) <= Barrier(ids, shows, offset))
      && (page.Ok? ==>
            && page.value.items == ids[offset..Min(offset + limit, |ids|)]
            && (page.value.next.None? <==> offset + limit >= |ids|)
            && (page.value.next.Some? ==> LeadsTo(reg', sessionId, query, ids, page.value.next, offset + limit)))
  {
    hide Inv, Page, Grows, SameGeneration;
    PageSlices(reg, sessionId, query, ids, limit, cursor, offset);
    var end, barrier := Min(offset + limit, |ids|), Barrier(ids, shows, offset);
    var items := ids[offset..end];
    if end <= barrier {
      forall id | id in items ensures shows(id) {
        var i :| 0 <= i < |items| && items[i] == id;
        assert ids[offset + i] == id;
      }
    } else {
      assert items[barrier - offset] == ids[barrier] && ids[barrier] in items;
    }
  }

  lemma StretchJoins(rest: Walked, ids: seq<string>, shows: Projection, offset: nat, limit: nat, total: nat, visited: bool)
    requires limit >= 1 && offset + limit < |ids| && offset + limit <= Barrier(ids, shows, offset)
    requires Stretch(rest, ids, shows, offset + limit, total, visited) && (!visited ==> total == 0)
    ensures Stretch(rest.(items := ids[offset..offset + limit] + rest.items), ids, shows, offset, limit + total, true)
  {
    SameBarrier(ids, shows, offset, offset + limit);
    var n := |rest.items|;
    assert ids[offset..offset + limit] + ids[offset + limit..offset + limit + n] == ids[offset..offset + limit + n];
    var end := Min(offset + limit + total, |ids|);
    assert ids[offset..offset + limit] + ids[offset + limit..end] == ids[offset..end];
  }

  lemma RefusedStretch(rest: Walked, ids: seq<string>, shows: Projection, offset: nat, limit: nat, total: nat, visited: bool)
    requires offset <= |ids| && Barrier(ids, shows, offset) < Min(offset + limit, |ids|)
    requires Stretch(rest, ids, shows, offset, total, visited)
    ensures Stretch(rest.(refused := true), ids, shows, offset, limit + total, true)
  {
  }

  lemma LastStretch(reg: Registry, ids: seq<string>, shows: Projection, offset: nat, limit: nat, total: nat)
    requires offset <= |ids| <= offset + limit && |ids| <= Barrier(ids, shows, offset)
    ensures Stretch(Walked(reg, ids[offset..], true, false), ids, shows, offset, limit + total, true)
  {
  }

  /** The first visit of a walk, and from where the walk goes on. */
  lemma FirstVisit(reg: Registry, sessionId: string, query: Query, ids: seq<string>, shows: Projection, visits: seq<Visit>,
                   cursor: Option<string>, offset: nat, reg2: Registry, page: Result<PageResult>)
    requires Inv(reg) && LeadsTo(reg, sessionId, query, ids, cursor, offset) && visits != [] && visits[0].limit >= 1
    requires SameGeneration(reg, Walk(reg, sessionId, query, ids, shows, visits, cursor).reg, sessionId)
    requires (reg2, page) == ShowPage(Run(reg, visits[0].between), sessionId, query, ids, shows, visits[0].limit, cursor)
    ensures offset <= |ids| && Inv(reg2)
    ensures SameGeneration(reg2, Walk(reg, sessionId, query, ids, shows, visits, cursor).reg, sessionId)
    ensures
      var limit := visits[0].limit;
      && (page.Ok? <==> Min(offset + limit, |ids|) <= Barrier(ids, shows, offset))
      && (page.Err? ==> LeadsTo(reg2, sessionId, query, ids, cursor, offset))
      && (page.Ok? ==>
            && page.value.items == ids[offset..Min(offset + limit, |ids|)]
            && (page.value.next.None? <==> offset + limit >= |ids|)
            && (page.value.next.Some? ==> LeadsTo(reg2, sessionId, query, ids, page.value.next, offset + limit)))
  {
    hide Inv, Grows, ShowPage, Run, LeadsTo, SameGeneration, Walk, Barrier;
    OffsetInRange(reg, sessionId, query, ids, cursor, offset);
    var limit, reg1 := visits[0].limit, Run(reg, visits[0].between);
    RunKeepsInv(reg, visits[0].between);
    AnyPageGrows(reg1, sessionId, query, ids, shows, limit, cursor);
    var end := Walk(reg, sessionId, query, ids, shows, visits, cursor).reg;
    RestGrows(reg, sessionId, query, ids, shows, visits, cursor, reg2, page);
    GrowsTransitive(reg1, reg2, end);
    NoWayBack(reg, reg1, end, sessionId);
    StillLeads(reg, reg1, sessionId, query, ids, cursor, offset);
    PageShownIff(reg1, sessionId, query, ids, shows, limit, cursor, offset);
    NoWayBack(reg1, reg2, end, sessionId);
    StillLeads(reg1, reg2, sessionId, query, ids, cursor, offset);
  }

  /** A walk shows one stretch of the list, whatever the sizes, and is refused only where the projection fails. */
  lemma {:induction false} WalkShowsStretch(reg: Registry, sessionId: string, query: Query, ids: seq<string>, shows: Projection,
                                            visits: seq<Visit>, cursor: Option<string>, offset: nat)
    requires Inv(reg) && LeadsTo(reg, sessionId, query, ids, cursor, offset)
    requires forall v <- visits :: v.limit >= 1
    requires SameGeneration(reg, Walk(reg, sessionId, query, ids, shows, visits, cursor).reg, sessionId)
    ensures offset <= |ids|
    ensures Stretch(Walk(reg, sessionId, query, ids, shows, visits, cursor), ids, shows, offset, TotalLimit(visits), visits != [])
    decreases |visits|
  {
    hide Inv, ShowPage, Run, LeadsTo, SameGeneration, Barrier, Stretch;
    OffsetInRange(reg, sessionId, query, ids, cursor, offset);
    if visits == [] {
      NoStretch(reg, ids, shows, offset);
    } else {
      var limit, rest := visits[0].limit, visits[1..];
      assert visits[0] in visits;
      var (reg2, page) := ShowPage(Run(reg, visits[0].between), sessionId, query, ids, shows, limit, cursor);
      FirstVisit(reg, sessionId, query, ids, shows, visits, cursor, offset, reg2, page);
      if page.Err? {
        WalkShowsStretch(reg2, sessionId, query, ids, shows, rest, cursor, offset);
        RefusedStretch(Walk(reg2, sessionId, query, ids, shows, rest, cursor), ids, shows, offset, limit, TotalLimit(rest), rest != []);
      } else if page.value.next.Some? {
        WalkShowsStretch(reg2, sessionId, query, ids, shows, rest, page.value.next, offset + limit);
        StretchJoins(Walk(reg2, sessionId, query, ids, shows, rest, page.value.next), ids, shows, offset, limit, TotalLimit(rest), rest != []);
      } else {
        LastStretch(reg2, ids, shows, offset, limit, TotalLimit(rest));
        assert ids[offset..] == ids[offset..Min(offset + limit, |ids|)];
      }
    }
  }

  lemma NoStretch(reg: Registry, ids: seq<string>, shows: Projection, offset: nat)
    requires offset <= |ids|
    ensures Stretch(Walked(reg, [], false, false), ids, shows, offset, 0, false)
  {
  }

  lemma OffsetInRange(reg: Registry, sessionId: string, query: Query, ids: seq<string>, cursor: Option<string>, offset: nat)
    requires LeadsTo(reg, sessionId, query, ids, cursor, offset)
    ensures offset <= |ids|
  {
  }

  lemma RestGrows(reg: Registry, sessionId: string, query: Query, ids: seq<string>, shows: Projection, visits: seq<Visit>,
                  cursor: Option<string>, reg2: Registry, page: Result<PageResult>)
    requires visits != [] && Inv(reg2)
    requires (reg2, page) == ShowPage(Run(reg, visits[0].between), sessionId, query, ids, shows, visits[0].limit, cursor)
    ensures Grows(reg2, Walk(reg, sessionId, query, ids, shows, visits, cursor).reg)
  {
    hide Inv, Grows, ShowPage, Run;
    GrowsFromItself(reg2);
    if GoesOn(page) {
      WalkGrows(reg2, sessionId, query, ids, shows, visits[1..], Onward(page, cursor));
    }
  }

  ghost predicate AllShow(ids: seq<string>, shows: Projection) {
    forall id <- ids :: shows(id)
  }

  /**
    From the first page, with any mix of page sizes, retries and other activity in between, following the
    cursors yields every id exactly once and in order, and ends with a null cursor, if and only if every
    id can be projected; else it stops short of the first that cannot, and is refused.
  */
  lemma CursorsEnumerateAllIff(reg: Registry, sessionId: string, query: Query, ids: seq<string>, shows: Projection, visits: seq<Visit>)
    requires Inv(reg) && sessionId in reg.scopes
    requires visits != [] && TotalLimit(visits) >= |ids| && forall v <- visits :: v.limit >= 1
    requires SameGeneration(reg, Walk(reg, sessionId, query, ids, shows, visits, None).reg, sessionId)
    ensures
      var walked := Walk(reg, sessionId, query, ids, shows, visits, None);
      && (walked.finished <==> AllShow(ids, shows)) && (walked.items == ids <==> AllShow(ids, shows))
      && (walked.refused <==> !AllShow(ids, shows))
      && |walked.items| <= Barrier(ids, shows, 0) && walked.items == ids[..|walked.items|]
  {
    hide Inv, Walk, SameGeneration;
    WalkShowsStretch(reg, sessionId, query, ids, shows, visits, None, 0);
    var barrier := Barrier(ids, shows, 0);
    if barrier < |ids| {
      assert ids[barrier] in ids;
    } else {
      forall id | id in ids ensures shows(id) {
        var i :| 0 <= i < |ids| && ids[i] == id;
      }
    }
  }

  /** The lists of `_query_page`, whose items can all be projected: the whole list, unconditionally. */
  lemma CursorsEnumerateAll(reg: Registry, sessionId: string, query: Query, ids: seq<string>, shows: Projection, visits: seq<Visit>)
    requires AllShow(ids, shows) && Inv(reg) && sessionId in reg.scopes
    requires visits != [] && TotalLimit(visits) >= |ids| && forall v <- visits :: v.limit >= 1
    requires SameGeneration(reg, Walk(reg, sessionId, query, ids, shows, visits, None).reg, sessionId)
    ensures
      var walked := Walk(reg, sessionId, query, ids, shows, visits, None);
      walked.finished && !walked.refused && walked.items == ids
  {
    hide Inv, Walk, SameGeneration, AllShow;
    CursorsEnumerateAllIff(reg, sessionId, query, ids, shows, visits);
  }

  /** Before the end every page has something new: a walk of more pages than ids is over, unless it is refused for ever. */
  lemma WalkTerminatesIff(reg: Registry, sessionId: string, query: Query, ids: seq<string>, shows: Projection, visits: seq<Visit>)
    requires Inv(reg) && sessionId in reg.scopes
    requires |visits| > |ids| && forall v <- visits :: v.limit >= 1
    requires SameGeneration(reg, Walk(reg, sessionId, query, ids, shows, visits, None).reg, sessionId)
    ensures Walk(reg, sessionId, query, ids, shows, visits, None).finished <==> AllShow(ids, shows)
  {
    hide Inv, Walk, SameGeneration, AllShow;
    LimitsAddUp(visits);
    CursorsEnumerateAllIff(reg, sessionId, query, ids, shows, visits);
  }

  lemma {:induction false} LimitsAddUp(visits: seq<Visit>)
    requires forall v <- visits :: v.limit >= 1
    ensures TotalLimit(visits) >= |visits|
  {
    if visits != [] {
      assert visits[0] in visits;
      LimitsAddUp(visits[1..]);
    }
  }

  /** The list was read under a generation that is over: the cursor is refused. */
  lemma CursorDiesWithGeneration(reg: Registry, reg': Registry, sessionId: string, query: Query, ids: seq<string>,
                                 limit: nat, cursor: string, offset: nat)
    requires LeadsTo(reg, sessionId, query, ids, Some(cursor), offset) && Grows(reg, reg')
    requires !SameGeneration(reg, reg', sessionId)
    ensures Page(reg', sessionId, query, ids, limit, Some(cursor)) == (reg', Err("stale_revision_cursor"))
  {
  }

  /** The cut that `_list_account_occurrences` and `_query_page` share. */
  method NextPage(registry: AccountReferenceRegistry, sessionId: string, query: Query, ids: seq<string>, limit: nat,
                  cursor: Option<string>) returns (page: Result<PageResult>)
    modifies registry
    ensures (registry.View(), page) == Page(old(registry.View()), sessionId, query, ids, limit, cursor)
  {
    if sessionId !in registry.scopes {
      return Err("investigation_scope_unbound");
    }
    var offset := 0;
    if cursor.Some? {
      var resolved := ResolveCursor(registry.View(), sessionId, cursor.value, query, ids);
      if resolved.Err? {
        return Err(resolved.code);
      }
      offset := resolved.value.nextOffset;
    }
    var selected := if offset <= |ids| then ids[offset..Min(offset + limit, |ids|)] else [];
    if offset + |selected| >= |ids| {
      return Ok(PageResult(selected, offset, None));
    }
    var next := registry.IssuePage(sessionId, query, ids, offset + |selected|);
    return Ok(PageResult(selected, offset, Some(next.value)));
  }

  /** A page, and the loop that projects its items. */
  method ListPage(registry: AccountReferenceRegistry, sessionId: string, query: Query, ids: seq<string>, shows: Projection,
                  limit: nat, cursor: Option<string>) returns (page: Result<PageResult>)
    modifies registry
    ensures (registry.View(), page) == ShowPage(old(registry.View()), sessionId, query, ids, shows, limit, cursor)
  {
    hide Page;
    page := NextPage(registry, sessionId, query, ids, limit, cursor);
    if page.Ok? {
      var items := page.value.items;
      for i := 0 to |items|
        invariant forall id <- items[..i] :: shows(id)
      {
        assert items[..i + 1] == items[..i] + [items[i]];
        if !shows(items[i]) {
          return Err("unknown_account");
        }
      }
      assert items[..|items|] == items;
    }
  }
}
