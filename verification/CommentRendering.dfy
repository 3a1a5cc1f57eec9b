/** A delivered page as Markdown (`render`): one quoted line for every line of every comment. */
module CommentRendering {
  import opened Wrappers
  import opened Lines
  import opened CommentPrinter
  import B = CommentBatches
  import Tokens

  function AuditLabel(c: B.Comment): string {
    if c.auditStatus != "completed" then
      if c.auditStatus == "failed" then "审核失败"
      else if c.auditStatus == "pending" || c.auditStatus == "queued" then "待审核"
      else "审核状态未知"
    else if c.riskLevel == "high" then "高风险"
    else if c.riskLevel == "medium" then "中风险"
    else if c.riskLevel == "low" then "低风险"
    else if c.riskLevel == "none" then "已审核未标风险"
    else "已审核 · 等级未记录"
  }

  function AuthorText(c: B.Comment): string {
    ReplaceChar(Literal(if c.author == "" then "未记录作者" else c.author), '\n', " ")
  }

  function Spaces(n: nat): string {
    seq(n, i => ' ')
  }

  function Indent(index: nat): string {
    Spaces(|Tokens.Decimal(index)| + 2)
  }

  function Header(index: nat, c: B.Comment): string {
    Tokens.Decimal(index) + ". **" + AuthorText(c) + "** · `" + AuditLabel(c) + "`"
  }

  function QuoteAll(indent: string, source: seq<string>): seq<string> {
    if source == [] then [] else [indent + "> " + Literal(source[0])] + QuoteAll(indent, source[1..])
  }

  function TimeLines(indent: string, time: string): seq<string> {
    if time == "" then [] else [indent + "*发布于 " + Literal(time) + "*", ""]
  }

  function CommentLines(index: nat, c: B.Comment, timeOf: string -> string): seq<string> {
    [Header(index, c) + "\n"] + QuoteAll(Indent(index), Split(c.content)) + [""]
      + TimeLines(Indent(index), timeOf(c.publishedAt))
  }

  function AllCommentLines(index: nat, comments: seq<B.Comment>, timeOf: string -> string): seq<string>
    decreases |comments|
  {
    if comments == [] then []
    else CommentLines(index, comments[0], timeOf) + AllCommentLines(index + 1, comments[1..], timeOf)
  }

  function Title(page: B.Page): string {
    (match page.query.filter
     case All => "全部"
     case Risk => "风险"
     case NoRisk => "已审核无风险"
     case Unknown => "审核未完成或未知")
    + "评论 · 共 " + Tokens.Decimal(page.matched) + " 条 · 本次 " + Tokens.Decimal(page.start) + "–"
    + Tokens.Decimal(page.end) + " 条"
  }

  function PageLines(page: B.Page, timeOf: string -> string): seq<string> {
    [Title(page), ""] + AllCommentLines(page.start, page.comments, timeOf)
      + ClosingLines(page.hasMore)
  }

  function ClosingLines(hasMore: bool): seq<string> {
    [if hasMore then "发送“继续”查看下一批。" else "已全部展示。", "", "*来源：报告保存的评论快照，并非平台全部评论。*"]
  }

  function EmptyPageText(page: B.Page): string {
    if page.matched == 0 then "当前筛选下没有已存评论。"
    else "当前筛选下共 " + Tokens.Decimal(page.matched) + " 条已存评论，已分批列出完毕，没有更多评论。"
  }

  /** The body of the loop in `render`. */
  method AppendComment(lines: seq<string>, index: nat, comment: B.Comment, timeOf: string -> string) returns (longer: seq<string>)
    ensures longer == lines + CommentLines(index, comment, timeOf)
  {
    hide Header, Literal, Split;
    longer := lines + [Header(index, comment) + "\n"];
    longer := longer + QuoteAll(Indent(index), Split(comment.content));
    longer := longer + [""];
    var timestamp := timeOf(comment.publishedAt);
    if timestamp != "" {
      longer := longer + [Indent(index) + "*发布于 " + Literal(timestamp) + "*", ""];
    }
  }

  /** `render`. */
  method Render(pages: map<string, B.Page>, turnId: string, timeOf: string -> string) returns (text: Option<string>)
    ensures text == (
      if turnId !in pages then None
      else if pages[turnId].comments == [] then Some(EmptyPageText(pages[turnId]))
      else Some(Join(PageLines(pages[turnId], timeOf))))
  {
    hide Title, CommentLines, ClosingLines, Join;
    if turnId !in pages {
      return None;
    }
    var page := pages[turnId];
    if page.comments == [] {
      return Some(EmptyPageText(page));
    }
    var lines := [Title(page), ""];
    for i := 0 to |page.comments|
      invariant lines + AllCommentLines(page.start + i, page.comments[i..], timeOf)
             == [Title(page), ""] + AllCommentLines(page.start, page.comments, timeOf)
    {
      var rest := page.comments[i..];
      assert rest[0] == page.comments[i] && rest[1..] == page.comments[i + 1..];
      lines := AppendComment(lines, page.start + i, page.comments[i], timeOf);
    }
    assert page.comments[|page.comments|..] == [] && lines + [] == lines;
    lines := lines + ClosingLines(page.hasMore);
    return Some(Join(lines));
  }

  // ---- what a reader finds in the text ----

  /** The text of a quoted line: indentation, `> `, text. */
  function QuotedPart(line: string): Option<string> {
    if line == "" then None
    else if line[0] == ' ' then QuotedPart(line[1..])
    else if |line| >= 2 && line[0] == '>' && line[1] == ' ' then Some(line[2..])
    else None
  }

  function Quotes(lines: seq<string>): seq<string> {
    if lines == [] then []
    else (if QuotedPart(lines[0]).Some? then [QuotedPart(lines[0]).value] else []) + Quotes(lines[1..])
  }

  function DecodeAll(lines: seq<string>, entities: Entities): seq<string> {
    if lines == [] then [] else [Decode(lines[0], entities)] + DecodeAll(lines[1..], entities)
  }

  function SourceLines(comments: seq<B.Comment>): seq<string> {
    if comments == [] then [] else Split(comments[0].content) + SourceLines(comments[1..])
  }

  function LiteralAll(source: seq<string>): seq<string> {
    if source == [] then [] else [Literal(source[0])] + LiteralAll(source[1..])
  }

  lemma {:induction false} QuotesConcat(a: seq<string>, b: seq<string>)
    ensures Quotes(a + b) == Quotes(a) + Quotes(b)
  {
    hide QuotedPart;
    if a == [] {
      assert a + b == b;
    } else {
      QuotesConcat(a[1..], b);
      assert (a + b)[1..] == a[1..] + b && (a + b)[0] == a[0];
    }
  }

  lemma {:induction false} LiteralAllConcat(a: seq<string>, b: seq<string>)
    ensures LiteralAll(a + b) == LiteralAll(a) + LiteralAll(b)
  {
    hide Literal;
    if a == [] {
      assert a + b == b;
    } else {
      LiteralAllConcat(a[1..], b);
      assert (a + b)[1..] == a[1..] + b && (a + b)[0] == a[0];
    }
  }

  lemma {:induction false} IndentSkipped(n: nat, rest: string)
    ensures QuotedPart(Spaces(n) + rest) == QuotedPart(rest)
  {
    var s := Spaces(n) + rest;
    if n == 0 {
      assert s == rest;
    } else {
      assert s[0] == ' ' && s[1..] == Spaces(n - 1) + rest;
      IndentSkipped(n - 1, rest);
    }
  }

  lemma {:induction false} ReplaceLeavesNone(s: string, c: char, text: string)
    requires c !in text
    ensures c !in ReplaceChar(s, c, text)
  {
    if s != "" {
      ReplaceLeavesNone(s[1..], c, text);
    }
  }

  lemma {:induction false} LiteralKeepsOneLine(s: string)
    requires OneLine(s)
    ensures OneLine(Print(s))
  {
    if s != "" {
      assert s[0] in s;
      LiteralKeepsOneLine(s[1..]);
    }
  }

  lemma HeaderIsPlain(index: nat, c: B.Comment)
    ensures OneLine(Header(index, c)) && QuotedPart(Header(index, c)) == None
  {
    var d := Tokens.Decimal(index);
    assert forall i | 0 <= i < |d| :: Tokens.IsDigit(d[i]);
    assert Header(index, c)[0] == d[0];
    assert OneLine(AuthorText(c)) by {
      ReplaceLeavesNone(Literal(if c.author == "" then "未记录作者" else c.author), '\n', " ");
    }
    assert OneLine(AuditLabel(c));
    OneLineConcat(d, ". **");
    OneLineConcat(d + ". **", AuthorText(c));
    OneLineConcat(d + ". **" + AuthorText(c), "** · `");
    OneLineConcat(d + ". **" + AuthorText(c) + "** · `", AuditLabel(c));
    OneLineConcat(d + ". **" + AuthorText(c) + "** · `" + AuditLabel(c), "`");
  }

  lemma OneLineConcat(a: string, b: string)
    requires OneLine(a) && OneLine(b)
    ensures OneLine(a + b)
  {
  }

  /** Quoting keeps every source line on one line of its own. */
  lemma {:induction false} QuotedLines(n: nat, source: seq<string>)
    requires forall l <- source :: OneLine(l)
    ensures SplitAll(QuoteAll(Spaces(n), source)) == QuoteAll(Spaces(n), source)
    ensures Quotes(QuoteAll(Spaces(n), source)) == LiteralAll(source)
  {
    if source != [] {
      hide Literal, QuotedPart;
      var line := Spaces(n) + "> " + Literal(source[0]);
      assert source[0] in source;
      QuotedLine(n, source[0]);
      QuotedLines(n, source[1..]);
      assert QuoteAll(Spaces(n), source)[0] == line && QuoteAll(Spaces(n), source)[1..] == QuoteAll(Spaces(n), source[1..]);
    }
  }

  lemma QuotedLine(n: nat, source: string)
    requires OneLine(source)
    ensures
      var line := Spaces(n) + "> " + Literal(source);
      Split(line) == [line] && QuotedPart(line) == Some(Literal(source))
  {
    hide Literal;
    var line, rest := Spaces(n) + "> " + Literal(source), "> " + Literal(source);
    LiteralIsPrint(source);
    LiteralKeepsOneLine(source);
    OneLineConcat(Spaces(n), "> ");
    OneLineConcat(Spaces(n) + "> ", Literal(source));
    SplitOneLine(line);
    assert line == Spaces(n) + rest && rest[2..] == Literal(source);
    IndentSkipped(n, rest);
  }

  lemma SpacesAreOneLine(n: nat)
    ensures OneLine(Spaces(n))
  {
  }

  lemma TimeLineIsPlain(n: nat, text: string)
    requires OneLine(text)
    ensures
      var line := Spaces(n) + "*发布于 " + text + "*";
      OneLine(line) && QuotedPart(line) == None
  {
    hide Spaces, QuotedPart;
    var rest := "*发布于 " + text + "*";
    SpacesAreOneLine(n);
    OneLineConcat(Spaces(n), "*发布于 ");
    OneLineConcat(Spaces(n) + "*发布于 ", text);
    OneLineConcat(Spaces(n) + "*发布于 " + text, "*");
    assert Spaces(n) + "*发布于 " + text + "*" == Spaces(n) + rest;
    IndentSkipped(n, rest);
    StarIsNoQuote(rest);
  }

  lemma TimeIsPlain(n: nat, time: string)
    requires OneLine(time)
    ensures Quotes(SplitAll(TimeLines(Spaces(n), time))) == []
  {
    if time != "" {
      hide Literal, Spaces, QuotedPart, SplitAll, Quotes, OneLine;
      var line := Spaces(n) + "*发布于 " + Literal(time) + "*";
      LiteralIsPrint(time);
      LiteralKeepsOneLine(time);
      TimeLineIsPlain(n, Literal(time));
      NothingIsOneLine();
      SplitAllOneLiners([line, ""]);
      UnquotedLine(line);
    }
  }

  lemma NothingIsOneLine()
    ensures OneLine("")
  {
  }

  lemma StarIsNoQuote(rest: string)
    requires rest != "" && rest[0] == '*'
    ensures QuotedPart(rest) == None
  {
  }

  lemma UnquotedLine(line: string)
    requires QuotedPart(line) == None
    ensures Quotes([line, ""]) == []
  {
    hide QuotedPart;
    assert [line, ""][1..] == [""] && [""][1..] == [];
    assert QuotedPart("") == None by { NothingQuoted(); }
    assert Quotes([line, ""]) == Quotes([""]);
  }

  lemma NothingQuoted()
    ensures QuotedPart("") == None
  {
  }

  lemma CommentQuotes(index: nat, c: B.Comment, timeOf: string -> string)
    requires OneLine(timeOf(c.publishedAt))
    ensures Quotes(SplitAll(CommentLines(index, c, timeOf))) == LiteralAll(Split(c.content))
  {
    hide Literal, Header, Split, LiteralAll, QuoteAll, TimeLines, Decode;
    var n := |Tokens.Decimal(index)| + 2;
    var head, quoted, time := [Header(index, c) + "\n"], QuoteAll(Spaces(n), Split(c.content)), TimeLines(Spaces(n), timeOf(c.publishedAt));
    assert CommentLines(index, c, timeOf) == head + quoted + [""] + time;
    SplitAllConcat(head + quoted + [""], time);
    SplitAllConcat(head + quoted, [""]);
    SplitAllConcat(head, quoted);
    QuotesConcat(SplitAll(head) + SplitAll(quoted) + SplitAll([""]), SplitAll(time));
    QuotesConcat(SplitAll(head) + SplitAll(quoted), SplitAll([""]));
    QuotesConcat(SplitAll(head), SplitAll(quoted));
    SplitGivesLines(c.content);
    QuotedLines(n, Split(c.content));
    TimeIsPlain(n, timeOf(c.publishedAt));
    HeaderQuotesNothing(index, c);
    SplitAllOneLiners([""]);
    assert Quotes([""]) == [];
  }

  lemma HeaderQuotesNothing(index: nat, c: B.Comment)
    ensures Quotes(SplitAll([Header(index, c) + "\n"])) == []
  {
    hide Header;
    HeaderIsPlain(index, c);
    var h := Header(index, c);
    assert h + "\n" == h + "\n" + "";
    SplitConcat(h, "");
    SplitOneLine(h);
    assert SplitAll([h + "\n"]) == [h, ""];
    assert [h, ""][1..] == [""];
    assert Quotes([h, ""]) == Quotes([""]) == [];
  }

  lemma {:induction false} AllCommentsQuote(index: nat, comments: seq<B.Comment>, timeOf: string -> string)
    requires forall c <- comments :: OneLine(timeOf(c.publishedAt))
    ensures Quotes(SplitAll(AllCommentLines(index, comments, timeOf))) == LiteralAll(SourceLines(comments))
    decreases |comments|
  {
    if comments != [] {
      hide CommentLines, Literal, Split, Quotes, LiteralAll, SplitAll;
      assert comments[0] in comments;
      CommentQuotes(index, comments[0], timeOf);
      AllCommentsQuote(index + 1, comments[1..], timeOf);
      SplitAllConcat(CommentLines(index, comments[0], timeOf), AllCommentLines(index + 1, comments[1..], timeOf));
      QuotesConcat(SplitAll(CommentLines(index, comments[0], timeOf)),
                   SplitAll(AllCommentLines(index + 1, comments[1..], timeOf)));
      LiteralAllConcat(Split(comments[0].content), SourceLines(comments[1..]));
    }
  }

  lemma {:induction false} DecodeLiterals(source: seq<string>, entities: Entities)
    requires KnowsTheThree(entities) && forall l <- source :: OneLine(l)
    ensures DecodeAll(LiteralAll(source), entities) == source
  {
    if source != [] {
      hide Literal, Decode;
      assert source[0] in source;
      LiteralReadsBack(source[0], entities);
      DecodeLiterals(source[1..], entities);
    }
  }

  lemma {:induction false} SourceLinesAreLines(comments: seq<B.Comment>)
    ensures forall l <- SourceLines(comments) :: OneLine(l)
  {
    if comments != [] {
      SplitGivesLines(comments[0].content);
      SourceLinesAreLines(comments[1..]);
    }
  }

  /**
    Where newlines alone end lines, the quoted lines of the printed page are exactly the lines of the
    comments, in order, one for one; read back they are the stored text. `CommentMarkdown` has the
    condition under which this also holds for a reader that ends lines at carriage returns.
  */
  lemma PageReadsBack(page: B.Page, timeOf: string -> string, entities: Entities)
    requires KnowsTheThree(entities) && forall c <- page.comments :: OneLine(timeOf(c.publishedAt))
    ensures DecodeAll(Quotes(Split(Join(PageLines(page, timeOf)))), entities) == SourceLines(page.comments)
  {
    PageQuotes(page, timeOf);
    SourceLinesAreLines(page.comments);
    DecodeLiterals(SourceLines(page.comments), entities);
  }

  lemma PageQuotes(page: B.Page, timeOf: string -> string)
    requires forall c <- page.comments :: OneLine(timeOf(c.publishedAt))
    ensures Quotes(Split(Join(PageLines(page, timeOf)))) == LiteralAll(SourceLines(page.comments))
  {
    hide Split, Join, SplitAll, Quotes, LiteralAll, SourceLines, AllCommentLines, Title, ClosingLines;
    var top, middle, bottom := [Title(page), ""], AllCommentLines(page.start, page.comments, timeOf), ClosingLines(page.hasMore);
    SplitOfJoin(PageLines(page, timeOf));
    SplitAllConcat(top + middle, bottom);
    SplitAllConcat(top, middle);
    QuotesConcat(SplitAll(top) + SplitAll(middle), SplitAll(bottom));
    QuotesConcat(SplitAll(top), SplitAll(middle));
    AllCommentsQuote(page.start, page.comments, timeOf);
    TopQuotesNothing(page);
    BottomQuotesNothing(page.hasMore);
  }

  lemma TopQuotesNothing(page: B.Page)
    ensures Quotes(SplitAll([Title(page), ""])) == []
  {
    TitleIsPlain(page);
    hide Title;
    SplitAllOneLiners([Title(page), ""]);
    assert [Title(page), ""][1..] == [""];
    assert Quotes([Title(page), ""]) == Quotes([""]) == [];
  }

  lemma TitleIsPlain(page: B.Page)
    ensures OneLine(Title(page)) && QuotedPart(Title(page)) == None
  {
    assert forall n: nat :: OneLine(Tokens.Decimal(n)) by {
      forall n: nat ensures OneLine(Tokens.Decimal(n)) {
        var d := Tokens.Decimal(n);
        assert forall i | 0 <= i < |d| :: Tokens.IsDigit(d[i]);
      }
    }
  }

  lemma BottomQuotesNothing(hasMore: bool)
    ensures Quotes(SplitAll(ClosingLines(hasMore))) == []
  {
    var a, b := if hasMore then "发送“继续”查看下一批。" else "已全部展示。", "*来源：报告保存的评论快照，并非平台全部评论。*";
    SplitAllOneLiners([a, "", b]);
    assert [a, "", b][1..] == ["", b] && ["", b][1..] == [b] && [b][1..] == [];
    assert Quotes([b]) == [] && Quotes(["", b]) == [];
  }
}
