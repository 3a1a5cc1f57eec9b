/**
  Which comments a published report has, field by field: the first raw form of an identity goes before
  its first compact form. Nothing here speaks of the projection that computes them.
*/
module LoadedComments {
  import opened Wrappers
  import opened Sorting
  import opened FrozenComments
  import opened Sublists
  import B = CommentBatches
  import C = CommentCalls

  predicate IsFirst(values: seq<RawComment>, id: string, i: int) {
    0 <= i < |values| && Normal(values[i].commentId) == id && forall j | 0 <= j < i :: Normal(values[j].commentId) != id
  }

  predicate Occurs(values: seq<RawComment>, id: string) {
    exists v <- values :: Normal(v.commentId) == id
  }

  ghost predicate SaysIn(values: seq<RawComment>, id: string, field: RawComment -> string, text: string) {
    exists i :: IsFirst(values, id, i) && field(values[i]) == text && Normal(text) != ""
  }

  ghost predicate SilentIn(values: seq<RawComment>, id: string, field: RawComment -> string) {
    forall i | IsFirst(values, id, i) :: Normal(field(values[i])) == ""
  }

  /** The field says this: in the first raw form, else in the first compact form, else nothing. */
  ghost predicate Says(p: Payload, id: string, field: RawComment -> string, text: string) {
    || SaysIn(p.raw, id, field, text)
    || (SilentIn(p.raw, id, field) && SaysIn(p.compact, id, field, text))
    || (SilentIn(p.raw, id, field) && SilentIn(p.compact, id, field) && text == "")
  }

  const STATUS: RawComment -> string := (c: RawComment) => c.auditStatus
  const LEVEL: RawComment -> string := (c: RawComment) => c.riskLevel
  const TIME: RawComment -> string := (c: RawComment) => c.createTime
  const TEXT: RawComment -> string := (c: RawComment) => c.content
  const AUTHOR: RawComment -> string := (c: RawComment) => c.nickname

  /** The word is the text in lower case. */
  ghost predicate InLowerCase(text: string, word: string) {
    && |text| == |word|
    && forall i | 0 <= i < |text| ::
         if 'A' <= text[i] <= 'Z' then word[i] as int == text[i] as int + 32 else word[i] == text[i]
  }

  /** Status and level of a comment, from what its two fields say. */
  ghost predicate AuditIs(status: string, level: string, auditStatus: string, riskLevel: string) {
    || (status == "" && level == "" && auditStatus == "unavailable" && riskLevel == "unavailable")
    || (&& InLowerCase(status, auditStatus) && InLowerCase(level, riskLevel)
        && (auditStatus == "completed" || auditStatus == "failed" || auditStatus == "pending" || auditStatus == "queued")
        && (riskLevel == "none" || riskLevel == "low" || riskLevel == "medium" || riskLevel == "high"))
    || (&& InLowerCase(status, auditStatus) && riskLevel == "unavailable"
        && (auditStatus == "failed" || auditStatus == "pending" || auditStatus == "queued")
        && (level == "" || InLowerCase(level, "unknown") || InLowerCase(level, "unavailable")))
  }

  /** The comment has what the payload says of its identity. */
  ghost predicate Depicts(p: Payload, clock: Clock, c: B.Comment) {
    && (exists status, level :: Says(p, c.id, STATUS, status) && Says(p, c.id, LEVEL, level)
          && AuditIs(Normal(status), Normal(level), c.auditStatus, c.riskLevel))
    && (exists time :: Says(p, c.id, TIME, time)
          && if Normal(time) == "" then c.publishedAt == "" else clock(Normal(time)) == Some(c.publishedAt))
    && Says(p, c.id, TEXT, c.content)
    && (exists name :: Says(p, c.id, AUTHOR, name) && c.author == Normal(name))
  }

  /** A comment of this payload. */
  ghost predicate Has(p: Payload, clock: Clock, c: B.Comment) {
    (Occurs(p.compact, c.id) || Occurs(p.raw, c.id)) && Depicts(p, clock, c)
  }

  // ---- the first form of an identity ----

  lemma {:induction false} FirstCandidate(values: seq<RawComment>, id: string)
    ensures Candidates(values, id) == [] ==> forall v <- values :: IdOf(v) != id
    ensures Candidates(values, id) != [] ==>
      exists i :: IsFirst(values, id, i) && values[i] == Candidates(values, id)[0]
    decreases |values|
  {
    hide Normal;
    if values != [] {
      var init := values[..|values| - 1];
      FirstCandidate(init, id);
      assert values == init + [values[|init|]];
      if Candidates(init, id) != [] {
        var i :| IsFirst(init, id, i) && init[i] == Candidates(init, id)[0];
        assert IsFirst(values, id, i) && values[i] == init[i];
      } else if Candidates(values, id) != [] {
        assert forall j | 0 <= j < |init| :: values[j] == init[j] && init[j] in init;
        assert IsFirst(values, id, |init|);
      }
    }
  }

  lemma FirstIsFirst(values: seq<RawComment>, id: string, i: int, j: int)
    requires IsFirst(values, id, i) && IsFirst(values, id, j)
    ensures i == j
  {
  }

  lemma FirstIff(values: seq<RawComment>, id: string)
    ensures First(Candidates(values, id)).None? <==> forall i :: !IsFirst(values, id, i)
    ensures forall i | IsFirst(values, id, i) :: First(Candidates(values, id)) == Some(values[i])
  {
    hide Normal;
    FirstCandidate(values, id);
    forall i | IsFirst(values, id, i) ensures First(Candidates(values, id)) == Some(values[i]) {
      assert values[i] in values && IdOf(values[i]) == id;
      var j :| IsFirst(values, id, j) && values[j] == Candidates(values, id)[0];
      FirstIsFirst(values, id, i, j);
    }
  }

  lemma SaysIff(p: Payload, id: string, field: RawComment -> string, text: string)
    ensures Says(p, id, field, text)
       <==> text == ValueOf(First(Candidates(p.raw, id)), First(Candidates(p.compact, id)), field)
  {
    hide Normal, Candidates, IsFirst;
    FirstIff(p.raw, id);
    FirstIff(p.compact, id);
    assert Normal("") == "" by { NormalOfNothing(); }
  }

  lemma NormalOfNothing()
    ensures Normal("") == ""
  {
  }

  // ---- status and level ----

  lemma LowerIff(text: string, word: string)
    ensures InLowerCase(text, word) <==> Lower(text) == word
  {
    if InLowerCase(text, word) {
      assert Lower(text) == word;
    }
  }

  lemma AuditIff(status: string, level: string, auditStatus: string, riskLevel: string)
    ensures AuditIs(status, level, auditStatus, riskLevel)
       <==> ProjectAudit(Lower(status), Lower(level)) == Ok(Audit(auditStatus, riskLevel))
  {
    hide Lower, InLowerCase;
    LowerIff(status, auditStatus);
    LowerIff(level, riskLevel);
    LowerIff(level, "unknown");
    LowerIff(level, "unavailable");
    assert (Lower(status) == "" <==> status == "") && (Lower(level) == "" <==> level == "") by {
      LowerLength(status);
      LowerLength(level);
    }
  }

  lemma LowerLength(s: string)
    ensures |Lower(s)| == |s|
  {
  }

  /** A comment is projected exactly as its two forms say, and refused exactly if they say nothing acceptable. */
  lemma DepictsIff(p: Payload, clock: Clock, c: B.Comment)
    ensures Depicts(p, clock, c) <==> ProjectOne(p.compact, p.raw, c.id, clock) == Ok(c)
  {
    hide Normal, Candidates, ProjectAudit, Lower, AuditIs, ValueOf, Says;
    var r, k := First(Candidates(p.raw, c.id)), First(Candidates(p.compact, c.id));
    forall text ensures Says(p, c.id, STATUS, text) <==> text == ValueOf(r, k, STATUS) { SaysIff(p, c.id, STATUS, text); }
    forall text ensures Says(p, c.id, LEVEL, text) <==> text == ValueOf(r, k, LEVEL) { SaysIff(p, c.id, LEVEL, text); }
    forall text ensures Says(p, c.id, TIME, text) <==> text == ValueOf(r, k, TIME) { SaysIff(p, c.id, TIME, text); }
    forall text ensures Says(p, c.id, TEXT, text) <==> text == ValueOf(r, k, TEXT) { SaysIff(p, c.id, TEXT, text); }
    forall text ensures Says(p, c.id, AUTHOR, text) <==> text == ValueOf(r, k, AUTHOR) { SaysIff(p, c.id, AUTHOR, text); }
    AuditIff(Normal(ValueOf(r, k, STATUS)), Normal(ValueOf(r, k, LEVEL)), c.auditStatus, c.riskLevel);
    ProjectedFields(p, clock, c.id, r, k);
  }

  lemma ProjectedFields(p: Payload, clock: Clock, id: string, r: Option<RawComment>, k: Option<RawComment>)
    requires r == First(Candidates(p.raw, id)) && k == First(Candidates(p.compact, id))
    ensures
      var audit := ProjectAudit(Lower(Normal(ValueOf(r, k, STATUS))), Lower(Normal(ValueOf(r, k, LEVEL))));
      var published := UtcTimestamp(clock, ValueOf(r, k, TIME));
      var projected := ProjectOne(p.compact, p.raw, id, clock);
      && (projected.Ok? <==> audit.Ok? && published.Some?)
      && (projected.Ok? ==>
            projected.value == B.Comment(id, ValueOf(r, k, TEXT), Normal(ValueOf(r, k, AUTHOR)), published.value,
                                         audit.value.status, audit.value.level))
  {
    hide Normal, Candidates, ProjectAudit, Lower, UtcTimestamp;
  }

  // ---- the report ----

  lemma OccursIff(values: seq<RawComment>, id: string)
    ensures Occurs(values, id) <==> id in IdsOf(values)
  {
    hide Normal;
    if Occurs(values, id) {
      var v :| v in values && Normal(v.commentId) == id;
      assert IdOf(v) in IdsOf(values);
    }
  }

  lemma HasIff(p: Payload, clock: Clock, c: B.Comment)
    ensures Has(p, clock, c) <==> IsComment(p, clock, c)
  {
    hide Occurs, IdsOf, Depicts, ProjectOne;
    OccursIff(p.compact, c.id);
    OccursIff(p.raw, c.id);
    DepictsIff(p, clock, c);
  }

  /** Every identity of the payload is non-empty and has a comment that its forms say. */
  ghost predicate Readable(p: Payload, clock: Clock) {
    && (forall v | v in p.compact || v in p.raw :: Normal(v.commentId) != "")
    && (forall id | Occurs(p.compact, id) || Occurs(p.raw, id) :: exists c: B.Comment :: c.id == id && Depicts(p, clock, c))
  }

  lemma ReadableIff(p: Payload, clock: Clock)
    ensures Readable(p, clock) <==> Acceptable(p, clock)
  {
    hide Normal, Occurs, IdsOf, Depicts, ProjectOne;
    forall id ensures ProjectOne(p.compact, p.raw, id, clock).Ok? <==> exists c: B.Comment :: c.id == id && Depicts(p, clock, c) {
      ProjectableIff(p, clock, id);
    }
    forall id ensures id in IdsOf(p.compact) + IdsOf(p.raw) <==> Occurs(p.compact, id) || Occurs(p.raw, id) {
      OccursIff(p.compact, id);
      OccursIff(p.raw, id);
    }
  }

  lemma ProjectableIff(p: Payload, clock: Clock, id: string)
    ensures ProjectOne(p.compact, p.raw, id, clock).Ok? <==> exists c: B.Comment :: c.id == id && Depicts(p, clock, c)
  {
    hide Depicts, ProjectOne;
    forall c: B.Comment | c.id == id ensures Depicts(p, clock, c) <==> ProjectOne(p.compact, p.raw, id, clock) == Ok(c) {
      DepictsIff(p, clock, c);
    }
    if ProjectOne(p.compact, p.raw, id, clock).Ok? {
      ProjectedId(p, id, clock);
      assert Depicts(p, clock, ProjectOne(p.compact, p.raw, id, clock).value);
    }
  }

  /** An audited comment with a risk. */
  ghost predicate IsRisk(c: B.Comment) {
    c.auditStatus == "completed" && (c.riskLevel == "low" || c.riskLevel == "medium" || c.riskLevel == "high")
  }

  /**
    A report is loaded exactly if every identity of every payload is readable and, under the all-pass
    templates, none of its comments has a risk.
  */
  lemma LoadsIff(payloads: seq<Payload>, allPass: bool, clock: Clock)
    ensures (AcceptableAll(payloads, clock) && AllowedAll(payloads, allPass, clock)) <==>
      ((forall p <- payloads :: Readable(p, clock))
         && (allPass ==> forall p, c | p in payloads && Has(p, clock, c) :: !IsRisk(c)))
  {
    hide Acceptable, Readable, Has, IsComment;
    forall p | p in payloads ensures Readable(p, clock) <==> Acceptable(p, clock) {
      ReadableIff(p, clock);
    }
    forall p, c ensures Has(p, clock, c) <==> IsComment(p, clock, c) {
      HasIff(p, clock, c);
    }
  }

  /**
    The delivery of a loaded report shows, for each post and each filter, exactly the comments of the
    post's payload, field by field what its forms say, whose status and level the filter names.
  */
  lemma LoadedIsShown(payloads: seq<Payload>, clock: Clock, report: B.Report, p: Payload, c: B.Comment)
    requires IsLoaded(payloads, clock, report) && p in payloads
    ensures c in C.Wanted(report, p.postRef, "all") <==> Has(p, clock, c)
    ensures c in C.Wanted(report, p.postRef, "risk") <==> Has(p, clock, c) && IsRisk(c)
    ensures c in C.Wanted(report, p.postRef, "no_risk") <==> Has(p, clock, c) && c.auditStatus == "completed" && c.riskLevel == "none"
    ensures c in C.Wanted(report, p.postRef, "unknown") <==> Has(p, clock, c) && c.auditStatus != "completed"
  {
    hide Has, Depicts, ProjectOne, SortedBy, UniqueBy, IdsOf, Filter;
    HasIff(p, clock, c);
    ProjectedAreComments(p, clock, report.commentsByPost[p.postRef], c);
    FilterHas(report.commentsByPost[p.postRef], C.AskedBy("all"));
    FilterHas(report.commentsByPost[p.postRef], C.AskedBy("risk"));
    FilterHas(report.commentsByPost[p.postRef], C.AskedBy("no_risk"));
    FilterHas(report.commentsByPost[p.postRef], C.AskedBy("unknown"));
  }

  /** The comments of a post stand in the order of their times, and of their identities at one time. */
  lemma LoadedIsOrdered(payloads: seq<Payload>, clock: Clock, report: B.Report, postId: string, i: int, j: int)
    requires IsLoaded(payloads, clock, report) && postId in report.posts
    requires 0 <= i < j < |report.commentsByPost[postId]|
    ensures
      var a, b := report.commentsByPost[postId][i], report.commentsByPost[postId][j];
      && a.id != b.id
      && if a.publishedAt == b.publishedAt then StringOrder(a.id, b.id) else StringOrder(a.publishedAt, b.publishedAt)
  {
    hide ProjectOne, IdsOf;
    var p :| p in payloads && p.postRef == postId;
    var a, b := report.commentsByPost[postId][i], report.commentsByPost[postId][j];
    assert TupleOrder(OrderKey(a), OrderKey(b)) && IdOfComment(a) != IdOfComment(b);
    if a.publishedAt == b.publishedAt {
      FirstDifferenceDecides([a.publishedAt], [a.id], [b.id], StringOrder);
      assert [a.publishedAt] + [a.id] == OrderKey(a) && [a.publishedAt] + [b.id] == OrderKey(b);
    } else {
      FirstDifferenceDecides([], OrderKey(a), OrderKey(b), StringOrder);
    }
  }
}
