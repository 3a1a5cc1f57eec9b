/**
  A delivered page as a Markdown reader sees it. Such a reader also ends a line at a carriage
  return, and `render` splits comments at newlines only.
*/
module CommentMarkdown {
  import opened Wrappers
  import opened Lines
  import opened CommentPrinter
  import opened CommentRendering
  import B = CommentBatches
  import Tokens

  function MarkdownLines(text: string): seq<string> {
    Split(UnixNewlines(text))
  }

  /** The comments with the line endings that a Markdown reader sees in them. */
  function Normalised(comments: seq<B.Comment>): seq<B.Comment> {
    if comments == [] then []
    else [comments[0].(content := UnixNewlines(comments[0].content))] + Normalised(comments[1..])
  }

  // ---- counting quote marks ----

  function CountAll(lines: seq<string>, c: char): nat {
    if lines == [] then 0 else Count(lines[0], c) + CountAll(lines[1..], c)
  }

  lemma {:induction false} CountAllConcat(a: seq<string>, b: seq<string>, c: char)
    ensures CountAll(a + b, c) == CountAll(a, c) + CountAll(b, c)
  {
    hide Count;
    if a == [] {
      assert a + b == b;
    } else {
      CountAllConcat(a[1..], b, c);
      assert (a + b)[1..] == a[1..] + b && (a + b)[0] == a[0];
    }
  }

  lemma {:induction false} SplitKeepsCount(s: string, c: char)
    requires c != '\n'
    ensures CountAll(Split(s), c) == Count(s, c)
  {
    if s != "" {
      SplitKeepsCount(s[1..], c);
      var rest := Split(s[1..]);
      if s[0] == '\n' {
        assert ([""] + rest)[1..] == rest;
      } else {
        var first := [s[0]] + rest[0];
        assert first[1..] == rest[0];
        assert ([first] + rest[1..])[1..] == rest[1..];
      }
    }
  }

  lemma {:induction false} JoinKeepsCount(lines: seq<string>, c: char)
    requires c != '\n'
    ensures Count(Join(lines), c) == CountAll(lines, c)
  {
    hide Count;
    CountNone("", c);
    if |lines| == 1 {
      assert lines[1..] == [];
    } else if |lines| > 1 {
      JoinKeepsCount(lines[1..], c);
      CountConcat(lines[0] + "\n", Join(lines[1..]), c);
      CountConcat(lines[0], "\n", c);
      CountNone("\n", c);
    }
  }

  lemma {:induction false} QuoteHasMark(line: string)
    ensures QuotedPart(line).Some? ==> Count(line, '>') >= 1
  {
    if line != "" && line[0] == ' ' {
      QuoteHasMark(line[1..]);
    }
  }

  lemma {:induction false} QuotesHaveMarks(lines: seq<string>)
    ensures |Quotes(lines)| <= CountAll(lines, '>')
  {
    if lines != [] {
      hide QuotedPart, Count;
      QuoteHasMark(lines[0]);
      QuotesHaveMarks(lines[1..]);
    }
  }

  lemma {:induction false} PrintHasNoMark(s: string)
    ensures '>' !in Print(s)
  {
    if s != "" {
      PrintHasNoMark(s[1..]);
    }
  }

  lemma LiteralHasNoMark(s: string)
    ensures '>' !in Literal(s)
  {
    LiteralIsPrint(s);
    PrintHasNoMark(s);
  }

  lemma {:induction false} QuoteAllMarks(n: nat, source: seq<string>)
    ensures CountAll(QuoteAll(Spaces(n), source), '>') == |source|
  {
    if source != [] {
      hide Literal;
      QuoteAllMarks(n, source[1..]);
      LiteralHasNoMark(source[0]);
      CountConcat(Spaces(n) + "> ", Literal(source[0]), '>');
      CountConcat(Spaces(n), "> ", '>');
      CountNone(Spaces(n), '>');
      CountNone(Literal(source[0]), '>');
      assert Count("> ", '>') == 1 by {
        assert "> "[1..] == " " && " "[1..] == "";
      }
      var all := QuoteAll(Spaces(n), source);
      assert all[0] == Spaces(n) + "> " + Literal(source[0]) && all[1..] == QuoteAll(Spaces(n), source[1..]);
    }
  }

  lemma HeaderMarks(index: nat, c: B.Comment)
    ensures Count(Header(index, c) + "\n", '>') == 0
  {
    HeaderLacks(index, c, '>');
    CountNone(Header(index, c) + "\n", '>');
  }

  /** A character that neither the wording nor a number of a page contains. */
  predicate Foreign(c: char) {
    c == '>' || c == '\r'
  }

  lemma LabelLacks(comment: B.Comment, c: char)
    requires Foreign(c)
    ensures c !in AuditLabel(comment)
  {
  }

  lemma HeaderLacks(index: nat, comment: B.Comment, c: char)
    requires Foreign(c) && (c == '\r' ==> c !in comment.author)
    ensures c !in Header(index, comment) + "\n"
  {
    var author := if comment.author == "" then "未记录作者" else comment.author;
    DecimalHas(index, c);
    LabelLacks(comment, c);
    assert c !in Literal(author) by {
      if c == '>' {
        LiteralHasNoMark(author);
      } else {
        LiteralHasNoReturn(author);
      }
    }
    ReplaceKeepsAbsent(Literal(author), '\n', " ", c);
    hide Literal, AuditLabel, ReplaceChar;
    var a := Tokens.Decimal(index) + ". **";
    var b := a + AuthorText(comment) + "** · `";
    assert c !in a;
    assert c !in b;
  }

  lemma LiteralHasNoReturn(s: string)
    requires '\r' !in s
    ensures '\r' !in Literal(s)
  {
    LiteralIsPrint(s);
    PrintHasNoReturn(s);
  }

  lemma {:induction false} PrintHasNoReturn(s: string)
    requires '\r' !in s
    ensures '\r' !in Print(s)
  {
    if s != "" {
      assert s[0] in s;
      PrintHasNoReturn(s[1..]);
    }
  }

  lemma {:induction false} ReplaceKeepsAbsent(s: string, c: char, text: string, x: char)
    requires x !in s && x !in text
    ensures x !in ReplaceChar(s, c, text)
  {
    if s != "" {
      ReplaceKeepsAbsent(s[1..], c, text, x);
    }
  }

  lemma TimeMarks(n: nat, time: string)
    ensures CountAll(TimeLines(Spaces(n), time), '>') == 0
  {
    if time != "" {
      LiteralHasNoMark(time);
      var line := Spaces(n) + "*发布于 " + Literal(time) + "*";
      assert '>' !in line;
      CountNone(line, '>');
      assert [line, ""][1..] == [""] && [""][1..] == [];
    }
  }

  lemma CommentMarks(index: nat, c: B.Comment, timeOf: string -> string)
    ensures CountAll(CommentLines(index, c, timeOf), '>') == |Split(c.content)|
  {
    hide Header, QuoteAll, TimeLines, Count, Split;
    var n := |Tokens.Decimal(index)| + 2;
    var head, quoted, time := [Header(index, c) + "\n"], QuoteAll(Spaces(n), Split(c.content)), TimeLines(Spaces(n), timeOf(c.publishedAt));
    assert CommentLines(index, c, timeOf) == head + quoted + [""] + time;
    CountAllConcat(head + quoted + [""], time, '>');
    CountAllConcat(head + quoted, [""], '>');
    CountAllConcat(head, quoted, '>');
    HeaderMarks(index, c);
    QuoteAllMarks(n, Split(c.content));
    TimeMarks(n, timeOf(c.publishedAt));
    CountNone("", '>');
    assert head[1..] == [] && [""][1..] == [];
  }

  lemma {:induction false} AllCommentMarks(index: nat, comments: seq<B.Comment>, timeOf: string -> string)
    ensures CountAll(AllCommentLines(index, comments, timeOf), '>') == |SourceLines(comments)|
    decreases |comments|
  {
    if comments != [] {
      hide CommentLines, Count, Split;
      CommentMarks(index, comments[0], timeOf);
      AllCommentMarks(index + 1, comments[1..], timeOf);
      CountAllConcat(CommentLines(index, comments[0], timeOf), AllCommentLines(index + 1, comments[1..], timeOf), '>');
    }
  }

  lemma NoMarks(lines: seq<string>, c: char)
    requires forall l <- lines :: c !in l
    ensures CountAll(lines, c) == 0
  {
    if lines != [] {
      assert lines[0] in lines;
      CountNone(lines[0], c);
      NoMarks(lines[1..], c);
    }
  }

  lemma DecimalHas(n: nat, c: char)
    requires !Tokens.IsDigit(c)
    ensures c !in Tokens.Decimal(n)
  {
    var d := Tokens.Decimal(n);
    assert forall i | 0 <= i < |d| :: Tokens.IsDigit(d[i]);
  }

  lemma TitleLacks(page: B.Page, c: char)
    requires Foreign(c)
    ensures c !in Title(page)
  {
    DecimalHas(page.matched, c);
    DecimalHas(page.start, c);
    DecimalHas(page.end, c);
    var a := match page.query.filter
      case All => "全部"
      case Risk => "风险"
      case NoRisk => "已审核无风险"
      case Unknown => "审核未完成或未知";
    assert c !in a;
    var b := a + "评论 · 共 " + Tokens.Decimal(page.matched);
    assert c !in b;
    var d := b + " 条 · 本次 " + Tokens.Decimal(page.start);
    assert c !in d;
    assert Title(page) == d + "–" + Tokens.Decimal(page.end) + " 条";
  }

  lemma ClosingLacks(hasMore: bool, c: char)
    requires Foreign(c)
    ensures forall l <- ClosingLines(hasMore) :: c !in l
  {
  }

  lemma PageMarks(page: B.Page, timeOf: string -> string)
    ensures Count(Join(PageLines(page, timeOf)), '>') == |SourceLines(page.comments)|
  {
    hide Title, ClosingLines, AllCommentLines, SourceLines, Count, Join, CountAll;
    var top, middle, bottom := [Title(page), ""], AllCommentLines(page.start, page.comments, timeOf), ClosingLines(page.hasMore);
    CountAllConcat(top + middle, bottom, '>');
    CountAllConcat(top, middle, '>');
    AllCommentMarks(page.start, page.comments, timeOf);
    TitleLacks(page, '>');
    ClosingLacks(page.hasMore, '>');
    NoMarks(top, '>');
    NoMarks(bottom, '>');
    JoinKeepsCount(PageLines(page, timeOf), '>');
  }

  /** However a reader ends lines, there are no more quoted lines than newline-separated lines of the comments. */
  lemma QuotesAtMost(page: B.Page, timeOf: string -> string)
    ensures |Quotes(MarkdownLines(Join(PageLines(page, timeOf))))| <= |SourceLines(page.comments)|
  {
    hide Quotes, Split, SourceLines, Join, PageLines;
    var text := Join(PageLines(page, timeOf));
    PageMarks(page, timeOf);
    UnixCounts(text);
    SplitKeepsCount(UnixNewlines(text), '>');
    QuotesHaveMarks(MarkdownLines(text));
  }

  ghost predicate NoLoneReturns(comments: seq<B.Comment>) {
    forall c <- comments :: NoLoneReturn(c.content)
  }

  lemma {:induction false} NormalisedLineCount(comments: seq<B.Comment>)
    ensures |SourceLines(Normalised(comments))| >= |SourceLines(comments)|
    ensures |SourceLines(Normalised(comments))| == |SourceLines(comments)| <==> NoLoneReturns(comments)
  {
    if comments != [] {
      hide UnixNewlines, NoLoneReturn, Split;
      var c, rest := comments[0], comments[1..];
      NormalisedLineCount(rest);
      UnixCounts(c.content);
      SplitCounts(c.content);
      SplitCounts(UnixNewlines(c.content));
      assert comments == [c] + rest;
      assert Normalised(comments)[1..] == Normalised(rest);
    }
  }

  // ---- dropping the carriage returns ----

  function WithoutAll(lines: seq<string>): seq<string> {
    if lines == [] then [] else [WithoutReturns(lines[0])] + WithoutAll(lines[1..])
  }

  lemma {:induction false} WithoutAllConcat(a: seq<string>, b: seq<string>)
    ensures WithoutAll(a + b) == WithoutAll(a) + WithoutAll(b)
  {
    hide WithoutReturns;
    if a == [] {
      assert a + b == b;
    } else {
      WithoutAllConcat(a[1..], b);
      assert (a + b)[1..] == a[1..] + b && (a + b)[0] == a[0];
    }
  }

  lemma {:induction false} WithoutAllNone(lines: seq<string>)
    requires forall l <- lines :: '\r' !in l
    ensures WithoutAll(lines) == lines
  {
    if lines != [] {
      assert lines[0] in lines;
      WithoutNone(lines[0]);
      WithoutAllNone(lines[1..]);
    }
  }

  lemma {:induction false} WithoutJoin(lines: seq<string>)
    ensures WithoutReturns(Join(lines)) == Join(WithoutAll(lines))
  {
    if |lines| > 1 {
      WithoutJoin(lines[1..]);
      WithoutConcat(lines[0] + "\n", Join(lines[1..]));
      WithoutConcat(lines[0], "\n");
      WithoutNone("\n");
      hide WithoutReturns;
      assert |WithoutAll(lines)| > 1 by {
        assert lines[1..] != [];
      }
    } else if |lines| == 1 {
      assert lines[1..] == [];
    }
  }

  lemma {:induction false} WithoutSplit(s: string)
    ensures Split(WithoutReturns(s)) == WithoutAll(Split(s))
  {
    if s != "" {
      WithoutSplit(s[1..]);
      var rest := Split(s[1..]);
      if s[0] == '\n' {
        assert WithoutReturns(s) == "\n" + WithoutReturns(s[1..]);
        assert ("\n" + WithoutReturns(s[1..]))[1..] == WithoutReturns(s[1..]);
        assert ([""] + rest)[1..] == rest;
      } else {
        var first := [s[0]] + rest[0];
        assert first[1..] == rest[0] && ([first] + rest[1..])[1..] == rest[1..];
        assert WithoutAll(Split(s)) == [WithoutReturns(first)] + WithoutAll(rest[1..]);
        if s[0] != '\r' {
          var w := WithoutReturns(s);
          assert w[0] == s[0] && w[1..] == WithoutReturns(s[1..]);
          SplitFirst(w, WithoutAll(rest));
        }
      }
    }
  }

  lemma {:induction false} WithoutPrint(s: string)
    ensures WithoutReturns(Print(s)) == Print(WithoutReturns(s))
  {
    if s != "" {
      WithoutPrint(s[1..]);
      PrintedChar(s[0]);
      hide PrintChar;
      WithoutConcat(PrintChar(s[0]), Print(s[1..]));
      if s[0] != '\r' {
        var w := WithoutReturns(s);
        assert w[0] == s[0] && w[1..] == WithoutReturns(s[1..]);
      }
    }
  }

  lemma PrintedChar(c: char)
    ensures WithoutReturns(PrintChar(c)) == if c == '\r' then "" else PrintChar(c)
  {
    if c == '\r' {
      assert PrintChar(c) == "\r" && "\r"[1..] == "";
    } else {
      assert '\r' !in PrintChar(c);
      hide PrintChar;
      WithoutNone(PrintChar(c));
    }
  }

  lemma WithoutLiteral(s: string)
    ensures WithoutReturns(Literal(s)) == Literal(WithoutReturns(s))
  {
    LiteralIsPrint(s);
    LiteralIsPrint(WithoutReturns(s));
    WithoutPrint(s);
  }

  lemma {:induction false} WithoutQuotes(n: nat, source: seq<string>)
    ensures WithoutAll(QuoteAll(Spaces(n), source)) == QuoteAll(Spaces(n), WithoutAll(source))
  {
    if source != [] {
      WithoutQuotes(n, source[1..]);
      WithoutLiteral(source[0]);
      WithoutConcat(Spaces(n) + "> ", Literal(source[0]));
      WithoutNone(Spaces(n) + "> ");
      hide Literal, WithoutReturns;
      var all := QuoteAll(Spaces(n), source);
      assert all[0] == Spaces(n) + "> " + Literal(source[0]) && all[1..] == QuoteAll(Spaces(n), source[1..]);
      var w := WithoutAll(source);
      assert w[0] == WithoutReturns(source[0]) && w[1..] == WithoutAll(source[1..]);
    }
  }

  /** What the loader and the clock guarantee: no line ending in an author or a printed time. */
  ghost predicate PlainNames(comments: seq<B.Comment>, timeOf: string -> string) {
    forall c <- comments :: '\r' !in c.author && '\r' !in timeOf(c.publishedAt) && OneLine(timeOf(c.publishedAt))
  }

  lemma TimeLacks(n: nat, time: string)
    requires '\r' !in time
    ensures forall l <- TimeLines(Spaces(n), time) :: '\r' !in l
  {
    LiteralHasNoReturn(time);
    hide Literal;
    var a := Spaces(n) + "*发布于 ";
    assert '\r' !in a;
    assert '\r' !in a + Literal(time) + "*";
  }

  function Unix(c: B.Comment): B.Comment {
    c.(content := UnixNewlines(c.content))
  }

  lemma WithoutComment(index: nat, c: B.Comment, timeOf: string -> string)
    requires NoLoneReturn(c.content) && '\r' !in c.author && '\r' !in timeOf(c.publishedAt)
    ensures WithoutAll(CommentLines(index, c, timeOf)) == CommentLines(index, Unix(c), timeOf)
  {
    hide Header, WithoutAll, Literal, QuoteAll, TimeLines, UnixNewlines, WithoutReturns, NoLoneReturn, Split, Tokens.Decimal, Spaces;
    var n := |Tokens.Decimal(index)| + 2;
    HeaderLacks(index, c, '\r');
    TimeLacks(n, timeOf(c.publishedAt));
    UnixIsWithout(c.content);
    WithoutSplit(c.content);
    WithoutQuotes(n, Split(c.content));
    SameHeader(index, c);
    var head, quoted, time := [Header(index, c) + "\n"], QuoteAll(Spaces(n), Split(c.content)), TimeLines(Spaces(n), timeOf(c.publishedAt));
    assert CommentLines(index, c, timeOf) == head + quoted + [""] + time;
    WithoutAllConcat(head + quoted + [""], time);
    WithoutAllConcat(head + quoted, [""]);
    WithoutAllConcat(head, quoted);
    WithoutAllNone(head);
    WithoutAllNone([""]);
    WithoutAllNone(time);
  }

  lemma SameHeader(index: nat, c: B.Comment)
    ensures Header(index, Unix(c)) == Header(index, c)
  {
    hide Literal;
  }

  lemma {:induction false} WithoutAllComments(index: nat, comments: seq<B.Comment>, timeOf: string -> string)
    requires NoLoneReturns(comments) && PlainNames(comments, timeOf)
    ensures WithoutAll(AllCommentLines(index, comments, timeOf)) == AllCommentLines(index, Normalised(comments), timeOf)
    decreases |comments|
  {
    if comments != [] {
      hide CommentLines, NoLoneReturn, UnixNewlines, WithoutAll;
      assert comments[0] in comments && forall c <- comments[1..] :: c in comments;
      WithoutComment(index, comments[0], timeOf);
      WithoutAllComments(index + 1, comments[1..], timeOf);
      WithoutAllConcat(CommentLines(index, comments[0], timeOf), AllCommentLines(index + 1, comments[1..], timeOf));
      assert Normalised(comments)[0] == Unix(comments[0]) && Normalised(comments)[1..] == Normalised(comments[1..]);
    } else {
      assert WithoutAll([]) == [];
    }
  }

  function NormalisedPage(page: B.Page): B.Page {
    page.(comments := Normalised(page.comments))
  }

  lemma WithoutPage(page: B.Page, timeOf: string -> string)
    requires NoLoneReturns(page.comments) && PlainNames(page.comments, timeOf)
    ensures WithoutAll(PageLines(page, timeOf)) == PageLines(NormalisedPage(page), timeOf)
  {
    hide Title, ClosingLines, AllCommentLines, NoLoneReturns, PlainNames, WithoutAll;
    var top, middle, bottom := [Title(page), ""], AllCommentLines(page.start, page.comments, timeOf), ClosingLines(page.hasMore);
    WithoutAllConcat(top + middle, bottom);
    WithoutAllConcat(top, middle);
    TitleLacks(page, '\r');
    ClosingLacks(page.hasMore, '\r');
    WithoutAllNone(top);
    WithoutAllNone(bottom);
    WithoutAllComments(page.start, page.comments, timeOf);
    assert Title(NormalisedPage(page)) == Title(page) by { SameTitle(page); }
  }

  lemma SameTitle(page: B.Page)
    ensures Title(NormalisedPage(page)) == Title(page)
  {
  }

  // ---- no new lone return comes up ----

  /** A carriage return stands at the end of the line at most. */
  predicate ReturnsEnd(line: string) {
    forall i | 0 <= i < |line| - 1 :: line[i] != '\r'
  }

  ghost predicate AllReturnsEnd(lines: seq<string>) {
    forall l <- lines :: ReturnsEnd(l)
  }

  lemma {:induction false} JoinedReturns(lines: seq<string>)
    requires lines != [] && AllReturnsEnd(lines) && '\r' !in lines[|lines| - 1]
    ensures NoLoneReturn(Join(lines))
  {
    assert ReturnsEnd(lines[0]);
    if |lines| > 1 {
      JoinedReturns(lines[1..]);
      var a, rest, s := lines[0], Join(lines[1..]), Join(lines);
      assert s == a + "\n" + rest;
      forall i | 0 <= i < |s| && s[i] == '\r' ensures i + 1 < |s| && s[i + 1] == '\n' {
        if i > |a| {
          assert rest[i - |a| - 1] == '\r' && s[i + 1] == rest[i - |a|];
        }
      }
    }
  }

  lemma {:induction false} SplitReturns(s: string)
    requires NoLoneReturn(s)
    ensures AllReturnsEnd(Split(s))
  {
    if s != "" {
      NoLoneReturnStep(s);
      SplitReturns(s[1..]);
      var rest := Split(s[1..]);
      if s[0] == '\r' {
        assert s[1..][0] == '\n' && rest[0] == "";
      } else {
        assert ReturnsEnd(rest[0]);
      }
    }
  }

  lemma {:induction false} PrintReturns(s: string)
    requires ReturnsEnd(s)
    ensures ReturnsEnd(Print(s))
  {
    if |s| == 1 {
      assert s[1..] == "" && Print(s) == PrintChar(s[0]);
      assert s[0] != '\r' ==> '\r' !in PrintChar(s[0]);
    } else if |s| > 1 {
      assert forall i | 0 <= i < |s[1..]| - 1 :: s[1..][i] == s[i + 1];
      PrintReturns(s[1..]);
      assert s[0] != '\r' && '\r' !in PrintChar(s[0]);
      hide PrintChar;
      var a, b := PrintChar(s[0]), Print(s[1..]);
      assert forall i | 0 <= i < |a + b| - 1 :: if i < |a| then (a + b)[i] in a else (a + b)[i] == b[i - |a|];
    }
  }

  lemma QuotedReturns(n: nat, line: string)
    requires ReturnsEnd(line)
    ensures ReturnsEnd(Spaces(n) + "> " + Literal(line))
  {
    LiteralIsPrint(line);
    PrintReturns(line);
    hide Literal;
    var a, b := Spaces(n) + "> ", Literal(line);
    assert '\r' !in a;
    assert forall i | 0 <= i < |a + b| - 1 :: if i < |a| then (a + b)[i] in a else (a + b)[i] == b[i - |a|];
  }

  lemma {:induction false} QuoteAllReturns(n: nat, source: seq<string>)
    requires AllReturnsEnd(source)
    ensures AllReturnsEnd(QuoteAll(Spaces(n), source))
  {
    if source != [] {
      hide Literal, ReturnsEnd;
      assert source[0] in source;
      QuotedReturns(n, source[0]);
      QuoteAllReturns(n, source[1..]);
    }
  }

  lemma PlainReturns(lines: seq<string>)
    requires forall l <- lines :: '\r' !in l
    ensures AllReturnsEnd(lines)
  {
  }

  lemma CommentReturns(index: nat, c: B.Comment, timeOf: string -> string)
    requires NoLoneReturn(c.content) && '\r' !in c.author && '\r' !in timeOf(c.publishedAt)
    ensures AllReturnsEnd(CommentLines(index, c, timeOf))
  {
    hide Header, QuoteAll, TimeLines, NoLoneReturn, Split, Tokens.Decimal, Spaces, ReturnsEnd;
    var n := |Tokens.Decimal(index)| + 2;
    var head, quoted, time := [Header(index, c) + "\n"], QuoteAll(Spaces(n), Split(c.content)), TimeLines(Spaces(n), timeOf(c.publishedAt));
    HeaderLacks(index, c, '\r');
    TimeLacks(n, timeOf(c.publishedAt));
    SplitReturns(c.content);
    QuoteAllReturns(n, Split(c.content));
    PlainReturns(head);
    PlainReturns([""]);
    PlainReturns(time);
    assert CommentLines(index, c, timeOf) == head + quoted + [""] + time;
  }

  lemma {:induction false} AllCommentReturns(index: nat, comments: seq<B.Comment>, timeOf: string -> string)
    requires NoLoneReturns(comments) && PlainNames(comments, timeOf)
    ensures AllReturnsEnd(AllCommentLines(index, comments, timeOf))
    decreases |comments|
  {
    if comments != [] {
      hide CommentLines, NoLoneReturn, ReturnsEnd;
      assert comments[0] in comments && forall c <- comments[1..] :: c in comments;
      CommentReturns(index, comments[0], timeOf);
      AllCommentReturns(index + 1, comments[1..], timeOf);
    }
  }

  lemma PageReturns(page: B.Page, timeOf: string -> string)
    requires NoLoneReturns(page.comments) && PlainNames(page.comments, timeOf)
    ensures NoLoneReturn(Join(PageLines(page, timeOf)))
  {
    hide Title, AllCommentLines, NoLoneReturns, PlainNames, ReturnsEnd, Join, NoLoneReturn;
    TitleLacks(page, '\r');
    ClosingLacks(page.hasMore, '\r');
    AllCommentReturns(page.start, page.comments, timeOf);
    PlainReturns([Title(page), ""]);
    PlainReturns(ClosingLines(page.hasMore));
    var lines := PageLines(page, timeOf);
    assert lines[|lines| - 1] == ClosingLines(page.hasMore)[2];
    JoinedReturns(lines);
  }

  // ---- the exact condition ----

  lemma {:induction false} NormalisedPlain(comments: seq<B.Comment>, timeOf: string -> string)
    requires PlainNames(comments, timeOf)
    ensures PlainNames(Normalised(comments), timeOf)
  {
    if comments != [] {
      hide UnixNewlines;
      assert comments[0] in comments && forall c <- comments[1..] :: c in comments;
      NormalisedPlain(comments[1..], timeOf);
    }
  }

  /** Without a lone return a Markdown reader finds the lines of the comments, quoted and in order. */
  lemma PageQuotesMarkdown(page: B.Page, timeOf: string -> string)
    requires NoLoneReturns(page.comments) && PlainNames(page.comments, timeOf)
    ensures Quotes(MarkdownLines(Join(PageLines(page, timeOf)))) == LiteralAll(SourceLines(Normalised(page.comments)))
  {
    hide PageLines, Join, NoLoneReturns, PlainNames, Quotes, LiteralAll, SourceLines, UnixNewlines, WithoutReturns, Split, NoLoneReturn;
    PageReturns(page, timeOf);
    UnixIsWithout(Join(PageLines(page, timeOf)));
    WithoutJoin(PageLines(page, timeOf));
    WithoutPage(page, timeOf);
    NormalisedPlain(page.comments, timeOf);
    PlainTimes(NormalisedPage(page).comments, timeOf);
    PageQuotes(NormalisedPage(page), timeOf);
  }

  lemma PlainTimes(comments: seq<B.Comment>, timeOf: string -> string)
    requires PlainNames(comments, timeOf)
    ensures forall c <- comments :: OneLine(timeOf(c.publishedAt))
  {
  }

  lemma {:induction false} DecodedCount(lines: seq<string>, entities: Entities)
    ensures |DecodeAll(lines, entities)| == |lines|
  {
    if lines != [] {
      hide Decode;
      DecodedCount(lines[1..], entities);
    }
  }

  /**
    Read as Markdown, the quoted lines of a page are exactly the lines of its comments, in order and
    one for one, if and only if no comment has a carriage return that stands alone.
  */
  lemma MarkdownReadsBackIff(page: B.Page, timeOf: string -> string, entities: Entities)
    requires KnowsTheThree(entities) && PlainNames(page.comments, timeOf)
    ensures DecodeAll(Quotes(MarkdownLines(Join(PageLines(page, timeOf)))), entities) == SourceLines(Normalised(page.comments))
       <==> forall c <- page.comments :: NoLoneReturn(c.content)
  {
    hide PageLines, Join, PlainNames, Quotes, SourceLines, UnixNewlines, Split, NoLoneReturn, KnowsTheThree, MarkdownLines, OneLine;
    var quotes := Quotes(MarkdownLines(Join(PageLines(page, timeOf))));
    NormalisedLineCount(page.comments);
    QuotesAtMost(page, timeOf);
    DecodedCount(quotes, entities);
    if NoLoneReturns(page.comments) {
      PageQuotesMarkdown(page, timeOf);
      SourceLinesAreLines(Normalised(page.comments));
      DecodeLiterals(SourceLines(Normalised(page.comments)), entities);
    }
  }

  // ---- a concrete comment that leaves its quote ----

  lemma UnixFirst(x: char, rest: string)
    ensures x != '\r' ==> UnixNewlines([x] + rest) == [x] + UnixNewlines(rest)
    ensures x == '\r' && (rest == "" || rest[0] != '\n') ==> UnixNewlines([x] + rest) == "\n" + UnixNewlines(rest)
    ensures x == '\r' && rest != "" && rest[0] == '\n' ==> UnixNewlines([x] + rest) == "\n" + UnixNewlines(rest[1..])
  {
    var s := [x] + rest;
    assert s[1..] == rest && (rest != "" ==> s[2..] == rest[1..]);
  }

  lemma {:induction false} UnixConcat(a: string, b: string)
    requires a == "" || a[|a| - 1] != '\r'
    ensures UnixNewlines(a + "\n" + b) == UnixNewlines(a) + "\n" + UnixNewlines(b)
    decreases |a|
  {
    hide UnixNewlines;
    if a == "" {
      UnixFirst('\n', b);
      assert a + "\n" + b == "\n" + b;
      assert UnixNewlines(a) == "" by { UnixOfNothing(); }
    } else {
      var rest := a[1..] + "\n" + b;
      assert a + "\n" + b == [a[0]] + rest && a == [a[0]] + a[1..];
      UnixFirst(a[0], rest);
      UnixFirst(a[0], a[1..]);
      UnixConcat(a[1..], b);
      if a[0] == '\r' && a[1] == '\n' {
        assert rest[1..] == a[2..] + "\n" + b && a[1..][1..] == a[2..];
        UnixConcat(a[2..], b);
      }
    }
  }

  lemma UnixOfNothing()
    ensures UnixNewlines("") == ""
  {
  }

  lemma {:induction false} UnixSkips(a: string, b: string)
    requires '\r' !in a
    ensures UnixNewlines(a + b) == a + UnixNewlines(b)
  {
    hide UnixNewlines;
    if a == "" {
      assert a + b == b;
    } else {
      UnixFirst(a[0], a[1..] + b);
      UnixSkips(a[1..], b);
      assert a + b == [a[0]] + (a[1..] + b);
    }
  }

  lemma {:induction false} JoinConcat(a: seq<string>, b: seq<string>)
    requires a != [] && b != []
    ensures Join(a + b) == Join(a) + "\n" + Join(b)
  {
    assert (a + b)[0] == a[0] && (a + b)[1..] == a[1..] + b;
    if |a| == 1 {
      assert a[1..] + b == b;
    } else {
      JoinConcat(a[1..], b);
    }
  }

  const TWO_RETURNS := B.Comment("c", "x\r\ry", "name", "", "completed", "none")

  lemma EscapedLines()
    ensures MarkdownLines("   > x\r\ry") == ["   > x", "", "y"]
  {
    hide UnixNewlines, Split;
    UnixOfNothing();
    UnixFirst('y', "");
    UnixFirst('\r', "y");
    UnixFirst('\r', "\ry");
    UnixSkips("   > x", "\r\ry");
    assert "   > x" + "\r\ry" == "   > x\r\ry" && ['\r'] + "\ry" == "\r\ry" && ['\r'] + "y" == "\ry" && ['y'] + "" == "y";
    assert UnixNewlines("   > x\r\ry") == "   > x\n\ny";
    SplitOneLine("   > x");
    SplitOneLine("");
    SplitOneLine("y");
    SplitConcat("   > x", "" + "\n" + "y");
    SplitConcat("", "y");
    assert "   > x\n\ny" == "   > x" + "\n" + ("" + "\n" + "y");
  }

  lemma PlainLiteral(s: string)
    requires s == "x\r\ry"
    ensures Literal(s) == s && Split(s) == [s]
  {
    LiteralIsPrint(s);
    assert s[1..] == "\r\ry" && s[1..][1..] == "\ry" && s[1..][1..][1..] == "y" && s[1..][1..][1..][1..] == "";
    assert Print("y") == "y" && Print("\ry") == "\ry" && Print("\r\ry") == "\r\ry";
    SplitOneLine(s);
  }

  /** The stored text `y` stands on a line of its own that is not quoted, behind an empty line. */
  lemma LoneReturnLeavesQuote(page: B.Page, timeOf: string -> string)
    requires page.comments == [TWO_RETURNS] && page.start == 1 && timeOf("") == ""
    ensures
      var lines := MarkdownLines(Join(PageLines(page, timeOf)));
      exists i :: 0 < i < |lines| && lines[i - 1] == "" && lines[i] == "y" && QuotedPart(lines[i]) == None
  {
    hide Header, Title, Literal, UnixNewlines, Join, Split;
    var q := "   > x\r\ry";
    PlainLiteral("x\r\ry");
    assert Tokens.Decimal(1) == "1" && Spaces(3) == "   ";
    var quoted := QuoteAll(Indent(1), Split(TWO_RETURNS.content));
    assert quoted == [q] by {
      assert Split(TWO_RETURNS.content) == ["x\r\ry"] && Indent(1) == "   ";
      OneQuote("   ", "x\r\ry");
      assert "   " + "> " + "x\r\ry" == q;
    }
    var head, tail := Header(1, TWO_RETURNS) + "\n", [""] + ClosingLines(page.hasMore);
    assert AllCommentLines(1, page.comments, timeOf) == CommentLines(1, TWO_RETURNS, timeOf) by {
      assert page.comments[1..] == [];
    }
    assert CommentLines(1, TWO_RETURNS, timeOf) == [head, q, ""];
    var top := [Title(page), "", head];
    assert PageLines(page, timeOf) == top + ([q] + tail);
    JoinConcat(top, [q] + tail);
    JoinConcat([q], tail);
    assert Join([q]) == q by { JoinOne(q); }
    JoinConcat([Title(page), ""], [head]);
    JoinOne(head);
    var a, b := Join(top), Join(tail);
    assert a[|a| - 1] == '\n' by {
      assert top == [Title(page), ""] + [head];
      assert head[|head| - 1] == '\n';
    }
    UnixConcat(a, q + "\n" + b);
    UnixConcat(q, b);
    EscapedLines();
    SplitConcat(UnixNewlines(a), UnixNewlines(q) + "\n" + UnixNewlines(b));
    SplitConcat(UnixNewlines(q), UnixNewlines(b));
    var first, lines := Split(UnixNewlines(a)), MarkdownLines(Join(PageLines(page, timeOf)));
    assert lines == first + (["   > x", "", "y"] + Split(UnixNewlines(b)));
    assert lines[|first| + 1] == "" && lines[|first| + 2] == "y";
    assert QuotedPart("y") == None;
  }

  lemma OneQuote(indent: string, line: string)
    ensures QuoteAll(indent, [line]) == [indent + "> " + Literal(line)]
  {
    hide Literal;
    assert [line][1..] == [];
  }

  lemma JoinOne(line: string)
    ensures Join([line]) == line
  {
  }
}
