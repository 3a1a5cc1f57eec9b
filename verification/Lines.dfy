/** Newline-separated text: Python's `split("\n")` and `"\n".join`. */
module Lines {

  predicate OneLine(s: string) {
    '\n' !in s
  }

  function Split(s: string): (lines: seq<string>)
    ensures |lines| >= 1
  {
    if s == "" then [""]
    else
      var rest := Split(s[1..]);
      if s[0] == '\n' then [""] + rest else [[s[0]] + rest[0]] + rest[1..]
  }

  function Join(lines: seq<string>): string {
    if lines == [] then "" else if |lines| == 1 then lines[0] else lines[0] + "\n" + Join(lines[1..])
  }

  function SplitAll(lines: seq<string>): seq<string> {
    if lines == [] then [] else Split(lines[0]) + SplitAll(lines[1..])
  }

  lemma {:induction false} SplitGivesLines(s: string)
    ensures forall l <- Split(s) :: OneLine(l)
  {
    if s != "" {
      SplitGivesLines(s[1..]);
      assert Split(s[1..])[0] in Split(s[1..]);
    }
  }

  lemma {:induction false} JoinOfSplit(s: string)
    ensures Join(Split(s)) == s
  {
    if s != "" {
      var rest := Split(s[1..]);
      JoinOfSplit(s[1..]);
      if s[0] == '\n' {
        assert ([""] + rest)[1..] == rest;
      } else {
        var first := [s[0]] + rest[0];
        assert ([first] + rest[1..])[1..] == rest[1..];
        assert Join([first] + rest[1..]) == [s[0]] + Join(rest);
      }
      assert s == [s[0]] + s[1..];
    }
  }

  lemma {:induction false} SplitOneLine(s: string)
    requires OneLine(s)
    ensures Split(s) == [s]
  {
    if s != "" {
      SplitOneLine(s[1..]);
      assert [s[0]] + s[1..] == s && s[0] in s;
    }
  }

  lemma SplitFirst(s: string, rest: seq<string>)
    requires s != "" && rest == Split(s[1..])
    ensures Split(s) == if s[0] == '\n' then [""] + rest else [[s[0]] + rest[0]] + rest[1..]
  {
  }

  lemma {:induction false} SplitConcat(a: string, b: string)
    ensures Split(a + "\n" + b) == Split(a) + Split(b)
  {
    var s := a + "\n" + b;
    if a == "" {
      assert s[1..] == b && s[0] == '\n';
    } else {
      SplitConcat(a[1..], b);
      assert s[1..] == a[1..] + "\n" + b && s[0] == a[0];
      SplitFirst(s, Split(a[1..]) + Split(b));
      SplitFirst(a, Split(a[1..]));
    }
  }

  lemma {:induction false} SplitOfJoin(lines: seq<string>)
    requires lines != []
    ensures Split(Join(lines)) == SplitAll(lines)
  {
    if |lines| > 1 {
      SplitOfJoin(lines[1..]);
      SplitConcat(lines[0], Join(lines[1..]));
    }
  }

  lemma {:induction false} SplitAllConcat(a: seq<string>, b: seq<string>)
    ensures SplitAll(a + b) == SplitAll(a) + SplitAll(b)
  {
    if a == [] {
      assert a + b == b;
    } else {
      SplitAllConcat(a[1..], b);
      assert (a + b)[1..] == a[1..] + b;
    }
  }

  lemma {:induction false} SplitAllOneLiners(lines: seq<string>)
    requires forall l <- lines :: OneLine(l)
    ensures SplitAll(lines) == lines
  {
    if lines != [] {
      SplitOneLine(lines[0]);
      SplitAllOneLiners(lines[1..]);
    }
  }

  // ---- carriage returns ----

  /** The text with every line ending of CommonMark (section 2.1), newline or carriage return or both, as a newline. */
  function UnixNewlines(s: string): string {
    if s == "" then ""
    else if s[0] == '\r' then "\n" + UnixNewlines(if |s| > 1 && s[1] == '\n' then s[2..] else s[1..])
    else [s[0]] + UnixNewlines(s[1..])
  }

  function WithoutReturns(s: string): string {
    if s == "" then "" else if s[0] == '\r' then WithoutReturns(s[1..]) else [s[0]] + WithoutReturns(s[1..])
  }

  /** Every carriage return stands before a newline. */
  predicate NoLoneReturn(s: string) {
    forall i | 0 <= i < |s| && s[i] == '\r' :: i + 1 < |s| && s[i + 1] == '\n'
  }

  function Count(s: string, c: char): nat {
    if s == "" then 0 else (if s[0] == c then 1 else 0) + Count(s[1..], c)
  }

  lemma {:induction false} CountConcat(a: string, b: string, c: char)
    ensures Count(a + b, c) == Count(a, c) + Count(b, c)
  {
    if a == "" {
      assert a + b == b;
    } else {
      CountConcat(a[1..], b, c);
      assert (a + b)[1..] == a[1..] + b && (a + b)[0] == a[0];
    }
  }

  lemma {:induction false} CountNone(s: string, c: char)
    requires c !in s
    ensures Count(s, c) == 0
  {
    if s != "" {
      CountNone(s[1..], c);
    }
  }

  lemma {:induction false} SplitCounts(s: string)
    ensures |Split(s)| == Count(s, '\n') + 1
  {
    if s != "" {
      SplitCounts(s[1..]);
    }
  }

  lemma NoLoneReturnStep(s: string)
    requires s != ""
    ensures NoLoneReturn(s) <==> (s[0] == '\r' ==> |s| > 1 && s[1] == '\n') && NoLoneReturn(s[1..])
  {
    if NoLoneReturn(s[1..]) && (s[0] == '\r' ==> |s| > 1 && s[1] == '\n') {
      forall i | 0 <= i < |s| && s[i] == '\r' ensures i + 1 < |s| && s[i + 1] == '\n' {
        if i > 0 {
          assert s[1..][i - 1] == '\r';
        }
      }
    }
  }

  lemma {:induction false} UnixIsWithout(s: string)
    requires NoLoneReturn(s)
    ensures UnixNewlines(s) == WithoutReturns(s)
    decreases |s|
  {
    if s != "" {
      NoLoneReturnStep(s);
      if s[0] == '\r' {
        NoLoneReturnStep(s[1..]);
        assert s[1..][1..] == s[2..] && s[1..][0] == '\n';
        UnixIsWithout(s[2..]);
      } else {
        UnixIsWithout(s[1..]);
      }
    }
  }

  /** A lone carriage return is a line ending that a reader of newlines does not see. */
  lemma {:induction false} UnixCounts(s: string)
    ensures Count(UnixNewlines(s), '\n') >= Count(s, '\n')
    ensures Count(UnixNewlines(s), '\n') == Count(s, '\n') <==> NoLoneReturn(s)
    ensures forall c | c != '\n' && c != '\r' :: Count(UnixNewlines(s), c) == Count(s, c)
    decreases |s|
  {
    if s != "" {
      NoLoneReturnStep(s);
      if s[0] == '\r' && |s| > 1 && s[1] == '\n' {
        NoLoneReturnStep(s[1..]);
        assert s[1..][1..] == s[2..] && s[1..][0] == '\n';
        UnixCounts(s[2..]);
      } else {
        UnixCounts(s[1..]);
      }
    }
  }

  lemma {:induction false} UnixHasNoReturn(s: string)
    ensures '\r' !in UnixNewlines(s)
    decreases |s|
  {
    if s != "" {
      UnixHasNoReturn(if s[0] == '\r' && |s| > 1 && s[1] == '\n' then s[2..] else s[1..]);
    }
  }

  lemma {:induction false} WithoutConcat(a: string, b: string)
    ensures WithoutReturns(a + b) == WithoutReturns(a) + WithoutReturns(b)
  {
    if a == "" {
      assert a + b == b;
    } else {
      WithoutConcat(a[1..], b);
      assert (a + b)[1..] == a[1..] + b && (a + b)[0] == a[0];
    }
  }

  lemma {:induction false} WithoutNone(s: string)
    requires '\r' !in s
    ensures WithoutReturns(s) == s
  {
    if s != "" {
      WithoutNone(s[1..]);
    }
  }
}
