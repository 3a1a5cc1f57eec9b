/**
  Untrusted comments as Markdown (`_literal` and `render`): what is printed reads back, by the
  backslash escapes and entities of CommonMark (sections 2.4 and 2.5), as what was stored.
*/
module CommentPrinter {
  import opened Wrappers
  import opened Lines

  // ---- one line ----

  function ReplaceChar(s: string, c: char, text: string): string {
    if s == "" then "" else (if s[0] == c then text else [s[0]]) + ReplaceChar(s[1..], c, text)
  }

  /** `html.escape(s, quote=False)`. */
  function HtmlEscape(s: string): string {
    ReplaceChar(ReplaceChar(ReplaceChar(s, '&', "&amp;"), '<', "&lt;"), '>', "&gt;")
  }

  /** The character class of `_literal`. */
  predicate IsSpecial(c: char) {
    || c == '\\' || c == '`' || c == '*' || c == '_' || c == '{' || c == '}' || c == '[' || c == ']'
    || c == '(' || c == ')' || c == '#' || c == '+' || c == '.' || c == '!' || c == '|' || c == '>'
    || c == '~' || c == '-'
  }

  function BackslashEscape(s: string): string {
    if s == "" then "" else (if IsSpecial(s[0]) then ['\\', s[0]] else [s[0]]) + BackslashEscape(s[1..])
  }

  /** `_literal`. */
  function Literal(s: string): string {
    ReplaceChar(BackslashEscape(HtmlEscape(s)), '\n', "\n   ")
  }

  function PrintChar(c: char): string {
    if c == '&' then "&amp;"
    else if c == '<' then "&lt;"
    else if c == '>' then "&gt;"
    else if c == '\n' then "\n   "
    else if IsSpecial(c) then ['\\', c]
    else [c]
  }

  /** One pass over the characters. */
  function Print(s: string): string {
    if s == "" then "" else PrintChar(s[0]) + Print(s[1..])
  }

  lemma {:induction false} ReplaceConcat(a: string, b: string, c: char, text: string)
    ensures ReplaceChar(a + b, c, text) == ReplaceChar(a, c, text) + ReplaceChar(b, c, text)
  {
    if a == "" {
      assert a + b == b;
    } else {
      ReplaceStep(a + b, c, text);
      ReplaceStep(a, c, text);
      hide ReplaceChar;
      ReplaceConcat(a[1..], b, c, text);
      assert (a + b)[1..] == a[1..] + b && (a + b)[0] == a[0];
    }
  }

  lemma ReplaceStep(s: string, c: char, text: string)
    requires s != ""
    ensures ReplaceChar(s, c, text) == (if s[0] == c then text else [s[0]]) + ReplaceChar(s[1..], c, text)
  {
  }

  lemma BackslashFirst(s: string)
    requires s != ""
    ensures BackslashEscape(s) == (if IsSpecial(s[0]) then ['\\', s[0]] else [s[0]]) + BackslashEscape(s[1..])
  {
    hide IsSpecial;
  }

  lemma {:induction false} BackslashConcat(a: string, b: string)
    ensures BackslashEscape(a + b) == BackslashEscape(a) + BackslashEscape(b)
  {
    if a == "" {
      assert a + b == b;
    } else {
      hide IsSpecial;
      BackslashConcat(a[1..], b);
      BackslashFirst(a + b);
      BackslashFirst(a);
      assert (a + b)[1..] == a[1..] + b && (a + b)[0] == a[0];
    }
  }

  lemma LiteralConcat(a: string, b: string)
    ensures Literal(a + b) == Literal(a) + Literal(b)
  {
    hide ReplaceChar, BackslashEscape;
    ReplaceConcat(a, b, '&', "&amp;");
    var a1, b1 := ReplaceChar(a, '&', "&amp;"), ReplaceChar(b, '&', "&amp;");
    ReplaceConcat(a1, b1, '<', "&lt;");
    var a2, b2 := ReplaceChar(a1, '<', "&lt;"), ReplaceChar(b1, '<', "&lt;");
    ReplaceConcat(a2, b2, '>', "&gt;");
    BackslashConcat(HtmlEscape(a), HtmlEscape(b));
    ReplaceConcat(BackslashEscape(HtmlEscape(a)), BackslashEscape(HtmlEscape(b)), '\n', "\n   ");
  }

  lemma ReplaceOne(x: char, c: char, text: string)
    ensures ReplaceChar([x], c, text) == if x == c then text else [x]
  {
    assert [x][1..] == "";
  }

  lemma {:induction false} ReplaceNone(s: string, c: char, text: string)
    requires c !in s
    ensures ReplaceChar(s, c, text) == s
  {
    if s != "" {
      ReplaceNone(s[1..], c, text);
    }
  }

  lemma {:induction false} BackslashNone(s: string)
    requires forall c <- s :: !IsSpecial(c)
    ensures BackslashEscape(s) == s
  {
    if s != "" {
      BackslashNone(s[1..]);
    }
  }

  function Entity(c: char): string {
    if c == '&' then "&amp;" else if c == '<' then "&lt;" else if c == '>' then "&gt;" else [c]
  }

  lemma EntityIsPlain(c: char)
    requires c == '&' || c == '<' || c == '>'
    ensures var e := Entity(c); '<' !in e && '>' !in e && '\n' !in e && forall x <- e :: !IsSpecial(x)
  {
  }

  lemma HtmlOfChar(c: char)
    ensures HtmlEscape([c]) == Entity(c)
  {
    hide ReplaceChar;
    ReplaceOne(c, '&', "&amp;");
    ReplaceOne(c, '<', "&lt;");
    ReplaceOne(c, '>', "&gt;");
    if c == '&' || c == '<' {
      EntityIsPlain(c);
      ReplaceNone(Entity(c), '<', "&lt;");
      ReplaceNone(Entity(c), '>', "&gt;");
    }
  }

  lemma BackslashOfChar(c: char)
    ensures BackslashEscape([c]) == if IsSpecial(c) then ['\\', c] else [c]
  {
    hide IsSpecial;
    assert [c][1..] == "";
  }

  lemma LiteralOfChar(c: char)
    ensures Literal([c]) == PrintChar(c)
  {
    hide HtmlEscape, ReplaceChar, BackslashEscape;
    HtmlOfChar(c);
    if c == '&' || c == '<' || c == '>' {
      EntityIsPlain(c);
      BackslashNone(Entity(c));
      ReplaceNone(Entity(c), '\n', "\n   ");
    } else {
      BackslashOfChar(c);
      ReplaceOne(c, '\n', "\n   ");
      if IsSpecial(c) {
        ReplaceNone(['\\', c], '\n', "\n   ");
      }
    }
  }

  lemma LiteralOfNothing()
    ensures Literal("") == ""
  {
  }

  /** The three passes of `_literal` never touch each other's output: they equal one pass per character. */
  lemma {:induction false} LiteralIsPrint(s: string)
    ensures Literal(s) == Print(s)
  {
    hide Literal;
    if s == "" {
      LiteralOfNothing();
    } else {
      LiteralOfChar(s[0]);
      LiteralIsPrint(s[1..]);
      LiteralConcat([s[0]], s[1..]);
      assert s == [s[0]] + s[1..];
    }
  }

  // ---- reading it back ----

  /** ASCII punctuation: what a backslash can escape (CommonMark, section 2.4). */
  predicate IsPunctuation(c: char) {
    '!' <= c <= '/' || ':' <= c <= '@' || '[' <= c <= '`' || '{' <= c <= '~'
  }

  /** What a reader knows of entity names (CommonMark, section 2.5). */
  type Entities = string -> Option<string>

  predicate KnowsTheThree(entities: Entities) {
    entities("amp") == Some("&") && entities("lt") == Some("<") && entities("gt") == Some(">")
  }

  function NameEnd(s: string): (n: nat)
    ensures n <= |s|
  {
    if s == "" || s[0] == ';' then 0 else 1 + NameEnd(s[1..])
  }

  function Decode(s: string, entities: Entities): string
    decreases |s|
  {
    if s == "" then ""
    else if s[0] == '\\' && |s| > 1 && IsPunctuation(s[1]) then [s[1]] + Decode(s[2..], entities)
    else
      var end := 1 + NameEnd(s[1..]);
      if s[0] == '&' && end < |s| && entities(s[1..end]).Some?
      then entities(s[1..end]).value + Decode(s[end + 1..], entities)
      else [s[0]] + Decode(s[1..], entities)
  }

  lemma {:induction false} NameEndsThere(name: string, rest: string)
    requires ';' !in name
    ensures NameEnd(name + ";" + rest) == |name|
  {
    var s := name + ";" + rest;
    if name != "" {
      NameEndsThere(name[1..], rest);
      assert s[1..] == name[1..] + ";" + rest;
    }
  }

  lemma DecodeEntity(c: char, name: string, rest: string, entities: Entities)
    requires ';' !in name && entities(name) == Some([c])
    ensures Decode("&" + name + ";" + rest, entities) == [c] + Decode(rest, entities)
  {
    var s := "&" + name + ";" + rest;
    assert s[1..] == name + ";" + rest;
    NameEndsThere(name, rest);
    assert s[1..1 + |name|] == name && s[2 + |name|..] == rest;
  }

  lemma DecodePrinted(c: char, rest: string, entities: Entities)
    requires KnowsTheThree(entities) && c != '\n'
    ensures Decode(PrintChar(c) + rest, entities) == [c] + Decode(rest, entities)
  {
    var s := PrintChar(c) + rest;
    if c == '&' {
      DecodeEntity(c, "amp", rest, entities);
      assert s == "&" + "amp" + ";" + rest;
    } else if c == '<' {
      DecodeEntity(c, "lt", rest, entities);
      assert s == "&" + "lt" + ";" + rest;
    } else if c == '>' {
      DecodeEntity(c, "gt", rest, entities);
      assert s == "&" + "gt" + ";" + rest;
    } else if IsSpecial(c) {
      assert s[0] == '\\' && s[1] == c && IsPunctuation(c) && s[2..] == rest;
    } else {
      assert s[0] == c && s[1..] == rest;
    }
  }

  lemma {:induction false} DecodePrint(s: string, entities: Entities)
    requires KnowsTheThree(entities) && OneLine(s)
    ensures Decode(Print(s), entities) == s
  {
    if s != "" {
      DecodePrint(s[1..], entities);
      DecodePrinted(s[0], Print(s[1..]), entities);
      assert s == [s[0]] + s[1..] && s[0] in s;
    }
  }

  /** Undoing backslash escapes and entities recovers every line, for every reader that knows the three entities. */
  lemma LiteralReadsBack(s: string, entities: Entities)
    requires KnowsTheThree(entities) && OneLine(s)
    ensures Decode(Literal(s), entities) == s
  {
    hide Literal, Decode;
    LiteralIsPrint(s);
    DecodePrint(s, entities);
  }

  lemma LiteralIsInjective(s: string, t: string)
    requires OneLine(s) && OneLine(t) && Literal(s) == Literal(t)
    ensures s == t
  {
    hide Literal;
    var entities: Entities := (n: string) =>
      if n == "amp" then Some("&") else if n == "lt" then Some("<") else if n == "gt" then Some(">") else None;
    assert entities("amp") == Some("&") && entities("lt") == Some("<") && entities("gt") == Some(">");
    LiteralReadsBack(s, entities);
    LiteralReadsBack(t, entities);
  }

  /** The characters with which Markdown marks text up, as the pattern of `_literal` lists them. */
  const MARKUP := "\\`*_{}[]()#+.!|>~-"

  /** These are the characters that get a backslash. */
  lemma SpecialIff(c: char)
    ensures IsSpecial(c) <==> c in MARKUP
  {
    assert MARKUP[0] == '\\' && MARKUP[1] == '`' && MARKUP[2] == '*' && MARKUP[3] == '_' && MARKUP[4] == '{' && MARKUP[5] == '}';
    assert MARKUP[6] == '[' && MARKUP[7] == ']' && MARKUP[8] == '(' && MARKUP[9] == ')' && MARKUP[10] == '#' && MARKUP[11] == '+';
    assert MARKUP[12] == '.' && MARKUP[13] == '!' && MARKUP[14] == '|' && MARKUP[15] == '>' && MARKUP[16] == '~' && MARKUP[17] == '-';
  }

  /** Every character of the class stands behind a backslash that escapes it, and no tag can open or close. */
  predicate NothingBare(s: string)
    decreases |s|
  {
    if s == "" then true
    else if s[0] == '\\' then |s| > 1 && IsSpecial(s[1]) && NothingBare(s[2..])
    else !IsSpecial(s[0]) && s[0] != '<' && NothingBare(s[1..])
  }

  lemma {:induction false} PlainPrefix(a: string, b: string)
    requires NothingBare(b)
    requires forall c <- a :: !IsSpecial(c) && c != '<'
    ensures NothingBare(a + b)
  {
    hide IsSpecial;
    if a == "" {
      assert a + b == b;
    } else {
      assert a[0] in a && forall c <- a[1..] :: c in a;
      PlainPrefix(a[1..], b);
      BackslashIsSpecial();
      var s := a + b;
      assert s[1..] == a[1..] + b && s[0] == a[0] && s[0] != '\\';
    }
  }

  lemma BackslashIsSpecial()
    ensures IsSpecial('\\')
  {
  }

  lemma {:induction false} PrintHidesSpecials(s: string)
    ensures NothingBare(Print(s))
  {
    if s != "" {
      var c, rest := s[0], Print(s[1..]);
      PrintHidesSpecials(s[1..]);
      if !(c == '&' || c == '<' || c == '>' || c == '\n') && IsSpecial(c) {
        var t := ['\\', c] + rest;
        assert t[0] == '\\' && t[1] == c && t[2..] == rest;
      } else {
        PlainPrefix(PrintChar(c), rest);
      }
    }
  }

  /** `_literal` leaves no unescaped character of its class, whatever the text. */
  lemma LiteralHidesSpecials(s: string)
    ensures NothingBare(Literal(s))
  {
    hide Literal, NothingBare;
    LiteralIsPrint(s);
    PrintHidesSpecials(s);
  }
}
