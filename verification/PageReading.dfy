/**
  What a reader of a printed page sees, line by line: each comment's number, author and audit label,
  then its lines, then its time.
*/
module PageReading {
  import opened Wrappers
  import opened Lines
  import opened CommentPrinter
  import opened CommentRendering
  import B = CommentBatches
  import Tokens

  const STATUS_WORDS: map<string, string> := map["failed" := "审核失败", "pending" := "待审核", "queued" := "待审核"]
  const LEVEL_WORDS: map<string, string> := map["high" := "高风险", "medium" := "中风险", "low" := "低风险", "none" := "已审核未标风险"]
  const FILTER_WORDS: map<string, string> :=
    map["all" := "全部", "risk" := "风险", "no_risk" := "已审核无风险", "unknown" := "审核未完成或未知"]

  /** The word for the audit of a comment. */
  function AuditWord(c: B.Comment): string {
    if c.auditStatus == "completed" then (if c.riskLevel in LEVEL_WORDS then LEVEL_WORDS[c.riskLevel] else "已审核 · 等级未记录")
    else if c.auditStatus in STATUS_WORDS then STATUS_WORDS[c.auditStatus]
    else "审核状态未知"
  }

  datatype Seen = Head(line: string) | Quote(text: string) | Date(text: string)

  /** The time of a line that shows one: indentation, `*发布于 `, time, `*`. */
  function DatePart(line: string): Option<string> {
    if line == "" then None
    else if line[0] == ' ' then DatePart(line[1..])
    else if |line| >= 6 && line[..5] == "*发布于 " && line[|line| - 1] == '*' then Some(line[5..|line| - 1])
    else None
  }

  function SeenIn(line: string, entities: Entities): seq<Seen> {
    if line != "" && Tokens.IsDigit(line[0]) then [Head(line)]
    else if QuotedPart(line).Some? then [Quote(Decode(QuotedPart(line).value, entities))]
    else if DatePart(line).Some? then [Date(Decode(DatePart(line).value, entities))]
    else []
  }

  function SeenOn(lines: seq<string>, entities: Entities): seq<Seen> {
    if lines == [] then [] else SeenIn(lines[0], entities) + SeenOn(lines[1..], entities)
  }

  function QuotesOf(source: seq<string>): seq<Seen> {
    if source == [] then [] else [Quote(source[0])] + QuotesOf(source[1..])
  }

  /** The head line of a comment: its number, its author, the word for its audit. */
  ghost predicate IsHead(line: string, index: nat, c: B.Comment, entities: Entities) {
    exists name ::
      && line == Tokens.Decimal(index) + ". **" + name + "** · `" + AuditWord(c) + "`"
      && (c.author == "" ==> Decode(name, entities) == "未记录作者")
      && (c.author != "" && OneLine(c.author) ==> Decode(name, entities) == c.author)
  }

  /** What a page tells of one comment. */
  ghost predicate Tells(seen: seq<Seen>, index: nat, c: B.Comment, time: string, entities: Entities) {
    && seen != [] && seen[0].Head? && IsHead(seen[0].line, index, c, entities)
    && seen[1..] == QuotesOf(Split(c.content)) + (if time == "" then [] else [Date(time)])
  }

  /** The page tells of its comments one after the other, numbered from `index`. */
  ghost predicate TellsAll(seen: seq<Seen>, index: nat, comments: seq<B.Comment>, timeOf: string -> string, entities: Entities)
    decreases |comments|
  {
    if comments == [] then seen == []
    else
      exists n | 0 <= n <= |seen| ::
        && Tells(seen[..n], index, comments[0], timeOf(comments[0].publishedAt), entities)
        && TellsAll(seen[n..], index + 1, comments[1..], timeOf, entities)
  }

  // ---- single lines ----

  lemma {:induction false} SeenConcat(a: seq<string>, b: seq<string>, entities: Entities)
    ensures SeenOn(a + b, entities) == SeenOn(a, entities) + SeenOn(b, entities)
  {
    hide SeenIn;
    if a == [] {
      assert a + b == b;
    } else {
      SeenConcat(a[1..], b, entities);
      assert (a + b)[1..] == a[1..] + b && (a + b)[0] == a[0];
    }
  }

  lemma SeenOne(line: string, entities: Entities)
    ensures SeenOn([line], entities) == SeenIn(line, entities)
  {
    hide SeenIn;
    assert [line][1..] == [];
    assert SeenOn([line], entities) == SeenIn(line, entities) + SeenOn([], entities);
  }

  lemma HeaderIsHead(index: nat, c: B.Comment, entities: Entities)
    requires KnowsTheThree(entities)
    ensures IsHead(Header(index, c), index, c, entities)
    ensures Header(index, c) != "" && Tokens.IsDigit(Header(index, c)[0])
  {
    hide Decode, Literal, ReplaceChar;
    var d := Tokens.Decimal(index);
    assert forall i | 0 <= i < |d| :: Tokens.IsDigit(d[i]);
    assert Header(index, c)[0] == d[0];
    assert AuditLabel(c) == AuditWord(c);
    var author := if c.author == "" then "未记录作者" else c.author;
    if OneLine(author) {
      LiteralIsPrint(author);
      LiteralKeepsOneLine(author);
      ReplaceNone(Literal(author), '\n', " ");
      LiteralReadsBack(author, entities);
    }
    assert OneLine("未记录作者");
    assert Header(index, c) == Tokens.Decimal(index) + ". **" + AuthorText(c) + "** · `" + AuditWord(c) + "`";
  }

  lemma HeaderSeen(index: nat, c: B.Comment, entities: Entities)
    requires KnowsTheThree(entities)
    ensures SeenOn(SplitAll([Header(index, c) + "\n"]), entities) == [Head(Header(index, c))]
  {
    hide Header;
    HeaderIsPlain(index, c);
    HeaderIsHead(index, c, entities);
    var h := Header(index, c);
    assert h + "\n" == h + "\n" + "";
    SplitConcat(h, "");
    SplitOneLine(h);
    assert SplitAll([h + "\n"]) == [h, ""];
    assert [h, ""] == [h] + [""];
    SeenConcat([h], [""], entities);
    SeenOne(h, entities);
    SeenOne("", entities);
  }

  lemma {:induction false} QuotesSeen(n: nat, source: seq<string>, entities: Entities)
    requires KnowsTheThree(entities) && n >= 1 && forall l <- source :: OneLine(l)
    ensures SeenOn(QuoteAll(Spaces(n), source), entities) == QuotesOf(source)
  {
    if source != [] {
      hide Literal, QuotedPart, Decode, Spaces, DatePart;
      assert source[0] in source;
      var line := Spaces(n) + "> " + Literal(source[0]);
      QuotedLine(n, source[0]);
      LiteralReadsBack(source[0], entities);
      QuotesSeen(n, source[1..], entities);
      SpacesFirst(n);
      assert line[0] == ' ';
      assert QuoteAll(Spaces(n), source)[0] == line && QuoteAll(Spaces(n), source)[1..] == QuoteAll(Spaces(n), source[1..]);
    }
  }

  lemma SpacesFirst(n: nat)
    requires n >= 1
    ensures Spaces(n) != "" && Spaces(n)[0] == ' '
  {
  }

  lemma {:induction false} IndentBeforeDate(n: nat, rest: string)
    ensures DatePart(Spaces(n) + rest) == DatePart(rest)
  {
    var s := Spaces(n) + rest;
    if n == 0 {
      assert s == rest;
    } else {
      assert s[0] == ' ' && s[1..] == Spaces(n - 1) + rest;
      IndentBeforeDate(n - 1, rest);
    }
  }

  lemma DateLine(n: nat, time: string)
    requires OneLine(time) && n >= 1
    ensures
      var line := Spaces(n) + "*发布于 " + Literal(time) + "*";
      && OneLine(line) && line[0] == ' ' && QuotedPart(line) == None && DatePart(line) == Some(Literal(time))
  {
    hide Literal, Spaces, QuotedPart, DatePart;
    var rest := "*发布于 " + Literal(time) + "*";
    var line := Spaces(n) + "*发布于 " + Literal(time) + "*";
    SpacesAreOneLine(n);
    LiteralIsPrint(time);
    LiteralKeepsOneLine(time);
    OneLineConcat(Spaces(n), "*发布于 ");
    OneLineConcat(Spaces(n) + "*发布于 ", Literal(time));
    OneLineConcat(Spaces(n) + "*发布于 " + Literal(time), "*");
    assert line == Spaces(n) + rest;
    IndentSkipped(n, rest);
    IndentBeforeDate(n, rest);
    DateHere(Literal(time));
    SpacesFirst(n);
  }

  lemma DateHere(text: string)
    ensures
      var rest := "*发布于 " + text + "*";
      QuotedPart(rest) == None && DatePart(rest) == Some(text)
  {
    var rest := "*发布于 " + text + "*";
    assert rest[0] == '*' && rest[..5] == "*发布于 " && rest[5..|rest| - 1] == text;
  }

  lemma TimeSeen(n: nat, time: string, entities: Entities)
    requires KnowsTheThree(entities) && OneLine(time) && n >= 1
    ensures SeenOn(SplitAll(TimeLines(Spaces(n), time)), entities) == (if time == "" then [] else [Date(time)])
  {
    hide Literal, Decode, Spaces, QuotedPart, DatePart, SeenOn, SplitAll;
    if time == "" {
      SeenNothing(entities);
    } else {
      var line := Spaces(n) + "*发布于 " + Literal(time) + "*";
      DateLine(n, time);
      LiteralReadsBack(time, entities);
      assert forall l <- [line, ""] :: OneLine(l);
      SplitAllOneLiners([line, ""]);
      assert [line, ""] == [line] + [""];
      SeenConcat([line], [""], entities);
      SeenOne(line, entities);
      EmptySeen(entities);
    }
  }

  lemma SeenNothing(entities: Entities)
    ensures SeenOn(SplitAll([]), entities) == []
  {
  }

  // ---- one comment, all comments, the page ----

  lemma CommentSeen(index: nat, c: B.Comment, timeOf: string -> string, entities: Entities)
    requires KnowsTheThree(entities) && OneLine(timeOf(c.publishedAt))
    ensures Tells(SeenOn(SplitAll(CommentLines(index, c, timeOf)), entities), index, c, timeOf(c.publishedAt), entities)
  {
    hide Literal, Header, Split, QuoteAll, TimeLines, Decode, SeenOn, IsHead, SplitAll, Tokens.Decimal;
    var n := |Tokens.Decimal(index)| + 2;
    var head, quoted, time := [Header(index, c) + "\n"], QuoteAll(Spaces(n), Split(c.content)), TimeLines(Spaces(n), timeOf(c.publishedAt));
    assert CommentLines(index, c, timeOf) == head + quoted + [""] + time;
    SplitAllConcat(head + quoted + [""], time);
    SplitAllConcat(head + quoted, [""]);
    SplitAllConcat(head, quoted);
    SeenConcat(SplitAll(head) + SplitAll(quoted) + SplitAll([""]), SplitAll(time), entities);
    SeenConcat(SplitAll(head) + SplitAll(quoted), SplitAll([""]), entities);
    SeenConcat(SplitAll(head), SplitAll(quoted), entities);
    SplitGivesLines(c.content);
    QuotedLines(n, Split(c.content));
    QuotesSeen(n, Split(c.content), entities);
    TimeSeen(n, timeOf(c.publishedAt), entities);
    HeaderSeen(index, c, entities);
    HeaderIsHead(index, c, entities);
    SplitAllOneLiners([""]);
    EmptySeen(entities);
    var seen := SeenOn(SplitAll(CommentLines(index, c, timeOf)), entities);
    assert seen[1..] == QuotesOf(Split(c.content)) + (if timeOf(c.publishedAt) == "" then [] else [Date(timeOf(c.publishedAt))]);
  }

  lemma EmptySeen(entities: Entities)
    ensures SeenOn([""], entities) == []
  {
    SeenOne("", entities);
  }

  lemma {:induction false} CommentsSeen(index: nat, comments: seq<B.Comment>, timeOf: string -> string, entities: Entities)
    requires KnowsTheThree(entities) && forall c <- comments :: OneLine(timeOf(c.publishedAt))
    ensures TellsAll(SeenOn(SplitAll(AllCommentLines(index, comments, timeOf)), entities), index, comments, timeOf, entities)
    decreases |comments|
  {
    if comments != [] {
      hide CommentLines, Tells, SeenOn, SplitAll;
      assert comments[0] in comments;
      CommentSeen(index, comments[0], timeOf, entities);
      CommentsSeen(index + 1, comments[1..], timeOf, entities);
      var a, b := SplitAll(CommentLines(index, comments[0], timeOf)), SplitAll(AllCommentLines(index + 1, comments[1..], timeOf));
      SplitAllConcat(CommentLines(index, comments[0], timeOf), AllCommentLines(index + 1, comments[1..], timeOf));
      SeenConcat(a, b, entities);
      var seen, n := SeenOn(a + b, entities), |SeenOn(a, entities)|;
      assert seen[..n] == SeenOn(a, entities) && seen[n..] == SeenOn(b, entities);
    }
  }

  /** The first line of a page: which comments, how many there are, and which of them follow. */
  ghost predicate IsTitle(line: string, page: B.Page) {
    && B.FilterName(page.query.filter) in FILTER_WORDS
    && line == FILTER_WORDS[B.FilterName(page.query.filter)] + "评论 · 共 " + Tokens.Decimal(page.matched) + " 条 · 本次 "
         + Tokens.Decimal(page.start) + "–" + Tokens.Decimal(page.end) + " 条"
  }

  /**
    A printed page, read line by line where newlines end lines: its title, then of every comment the
    number, author and audit, its lines and its time, and at the end whether more can be asked for.
  */
  lemma PageTells(page: B.Page, timeOf: string -> string, entities: Entities)
    requires KnowsTheThree(entities) && forall c <- page.comments :: OneLine(timeOf(c.publishedAt))
    ensures
      var lines := Split(Join(PageLines(page, timeOf)));
      && |lines| >= 5 && IsTitle(lines[0], page)
      && TellsAll(SeenOn(lines, entities), page.start, page.comments, timeOf, entities)
      && (lines[|lines| - 3] == (if page.hasMore then "发送“继续”查看下一批。" else "已全部展示。"))
  {
    hide Split, Join, SplitAll, SeenOn, AllCommentLines, Title, TellsAll, IsTitle;
    var top, middle, bottom := [Title(page), ""], AllCommentLines(page.start, page.comments, timeOf), ClosingLines(page.hasMore);
    SplitOfJoin(PageLines(page, timeOf));
    SplitAllConcat(top + middle, bottom);
    SplitAllConcat(top, middle);
    SeenConcat(SplitAll(top) + SplitAll(middle), SplitAll(bottom), entities);
    SeenConcat(SplitAll(top), SplitAll(middle), entities);
    CommentsSeen(page.start, page.comments, timeOf, entities);
    TopSeen(page, entities);
    BottomSeen(page.hasMore, entities);
    var lines := SplitAll(top) + SplitAll(middle) + SplitAll(bottom);
    assert lines[0] == Title(page) && lines[|lines| - 3] == ClosingLines(page.hasMore)[0];
    assert [] + SeenOn(SplitAll(middle), entities) + [] == SeenOn(SplitAll(middle), entities);
  }

  /** The text for a page without comments: whether none match, or how many were shown before. */
  lemma EmptyPageTells(page: B.Page)
    ensures page.matched == 0 ==> EmptyPageText(page) == "当前筛选下没有已存评论。"
    ensures page.matched > 0 ==>
      EmptyPageText(page) == "当前筛选下共 " + Tokens.Decimal(page.matched) + " 条已存评论，已分批列出完毕，没有更多评论。"
  {
  }

  lemma TopSeen(page: B.Page, entities: Entities)
    ensures SplitAll([Title(page), ""]) == [Title(page), ""]
    ensures SeenOn([Title(page), ""], entities) == [] && IsTitle(Title(page), page)
  {
    TitleIsPlain(page);
    TitleIsTitle(page);
    TitleFirst(page);
    hide Title, IsTitle;
    SplitAllOneLiners([Title(page), ""]);
    assert [Title(page), ""] == [Title(page)] + [""];
    SeenConcat([Title(page)], [""], entities);
    SeenOne(Title(page), entities);
    EmptySeen(entities);
  }

  lemma TitleIsTitle(page: B.Page)
    ensures IsTitle(Title(page), page)
  {
  }

  lemma TitleFirst(page: B.Page)
    ensures Title(page) != "" && !Tokens.IsDigit(Title(page)[0]) && DatePart(Title(page)) == None
  {
  }

  lemma BottomSeen(hasMore: bool, entities: Entities)
    ensures SplitAll(ClosingLines(hasMore)) == ClosingLines(hasMore)
    ensures SeenOn(ClosingLines(hasMore), entities) == []
  {
    hide SeenOn, SplitAll, Decode;
    var a, b := if hasMore then "发送“继续”查看下一批。" else "已全部展示。", "*来源：报告保存的评论快照，并非平台全部评论。*";
    SplitAllOneLiners([a, "", b]);
    assert [a, "", b] == [a] + [""] + [b];
    SeenConcat([a] + [""], [b], entities);
    SeenConcat([a], [""], entities);
    SeenOne(a, entities);
    EmptySeen(entities);
    SeenOne(b, entities);
    SourceIsNoDate(b);
  }

  lemma SourceIsNoDate(line: string)
    requires |line| >= 6 && line[0] == '*' && line[1] == '来'
    ensures QuotedPart(line) == None && DatePart(line) == None
  {
    assert line[..5][1] == '来' && "*发布于 "[1] == '发';
  }
}
