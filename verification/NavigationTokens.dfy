/**
  Finding and replacing opaque references in text (`_NAVIGATION_TOKEN`): a prefix, digits, an
  underscore, six hexadecimal digits and a word boundary.
*/
module NavigationTokens {
  import opened Wrappers
  import Tokens

  predicate IsDigit(c: char) {
    '0' <= c <= '9'
  }

  predicate IsHex(c: char) {
    IsDigit(c) || 'a' <= c <= 'f'
  }

  predicate IsShortPrefix(c: char) {
    c == 'g' || c == 'f' || c == 'p' || c == 'c' || c == 'e' || c == 'r' || c == 'q'
  }

  /** What a reference can consist of. */
  predicate IsBodyChar(c: char) {
    IsDigit(c) || 'a' <= c <= 'z' || c == '_'
  }

  /** Which characters are word characters to `\b`; of these only the brackets and the body matter here. */
  type WordClass = char -> bool

  function Digits(s: string): (n: nat)
    ensures n <= |s|
  {
    if s == "" || !IsDigit(s[0]) then 0 else 1 + Digits(s[1..])
  }

  /** Digits, underscore, six hexadecimal digits: how long they are, if the text begins with them. */
  function Tail(s: string): (n: Option<nat>)
    ensures n.Some? ==> 8 <= n.value <= |s| && IsHex(s[n.value - 1])
  {
    var d := Digits(s);
    if d >= 1 && d + 7 <= |s| && s[d] == '_' && forall i | d + 1 <= i < d + 7 :: IsHex(s[i]) then Some(d + 7) else None
  }

  function After(s: string, prefix: string): (n: Option<nat>)
    ensures n.Some? ==> |prefix| + 8 <= n.value <= |s| && IsHex(s[n.value - 1])
  {
    if prefix <= s && Tail(s[|prefix|..]).Some? then Some(|prefix| + Tail(s[|prefix|..]).value) else None
  }

  const LONG_PREFIXES: seq<string> := ["account", "activity", "target", "post", "page", "report"]

  function FirstOf(s: string, prefixes: seq<string>): (n: Option<nat>)
    ensures n.Some? ==> 8 <= n.value <= |s| && IsHex(s[n.value - 1])
  {
    if prefixes == [] then None
    else if After(s, prefixes[0]).Some? then After(s, prefixes[0])
    else FirstOf(s, prefixes[1..])
  }

  /** The length of a reference at the beginning of the text, before the boundary is checked. */
  function Body(s: string): (n: Option<nat>)
    ensures n.Some? ==> 8 <= n.value <= |s| && IsHex(s[n.value - 1])
  {
    if s != "" && IsShortPrefix(s[0]) && After(s, s[..1]).Some? then After(s, s[..1])
    else FirstOf(s, LONG_PREFIXES)
  }

  /** The length of a match at the beginning of the text. */
  function MatchLen(s: string, word: WordClass): (n: Option<nat>)
    ensures n.Some? ==> 8 <= n.value <= |s|
  {
    var n := Body(s);
    if n.Some? && (n.value == |s| || !word(s[n.value])) then n else None
  }

  /** `findall`. */
  function FindAll(s: string, word: WordClass): seq<string>
    decreases |s|
  {
    if s == "" then []
    else
      var n := MatchLen(s, word);
      if n.Some? then [s[..n.value]] + FindAll(s[n.value..], word) else FindAll(s[1..], word)
  }

  const MARK := "[旧引用需重新定位]"

  /** `sub`. */
  function Sub(s: string, word: WordClass): string
    decreases |s|
  {
    if s == "" then ""
    else
      var n := MatchLen(s, word);
      if n.Some? then MARK + Sub(s[n.value..], word) else [s[0]] + Sub(s[1..], word)
  }

  /** Where the leftmost match begins; the length of the text when there is none. */
  function FirstMatch(s: string, word: WordClass): (i: nat)
    ensures i <= |s|
    ensures i < |s| ==> MatchLen(s[i..], word).Some?
  {
    if s == "" || MatchLen(s, word).Some? then 0 else 1 + FirstMatch(s[1..], word)
  }

  /**
    What a replacement uncovers: references in front of a match that had no boundary behind them
    while the match stood there.
  */
  function Uncovered(s: string, word: WordClass): seq<string>
    decreases |s|
  {
    var i := FirstMatch(s, word);
    if i == |s| then []
    else
      var n := MatchLen(s[i..], word).value;
      FindAll(s[..i], word) + Uncovered(s[i + n..], word)
  }

  // ---- text that cannot belong to a reference ----

  ghost predicate Outside(y: string) {
    y == "" || !IsBodyChar(y[0])
  }

  ghost predicate Foreign(y: string, word: WordClass) {
    Outside(y) && (y == "" || !word(y[0]))
  }

  lemma {:induction false} DigitsStop(x: string, y: string)
    requires Outside(y)
    ensures Digits(x + y) == Digits(x)
  {
    if x == "" {
      assert x + y == y;
    } else {
      DigitsStop(x[1..], y);
      assert (x + y)[1..] == x[1..] + y;
    }
  }

  lemma TailStops(x: string, y: string)
    requires Outside(y)
    ensures Tail(x + y) == Tail(x)
  {
    DigitsStop(x, y);
    var d, s := Digits(x), x + y;
    if d + 7 <= |s| && !(d + 7 <= |x|) {
      assert d <= |x| && |x| < |s| && s[|x|] == y[0];
      assert !IsBodyChar(s[|x|]);
    }
    assert forall i | 0 <= i < |x| :: s[i] == x[i];
  }

  lemma AfterStops(x: string, y: string, prefix: string)
    requires Outside(y) && forall c <- prefix :: IsBodyChar(c)
    ensures After(x + y, prefix) == After(x, prefix)
  {
    var s, k := x + y, |prefix|;
    if k <= |x| {
      assert s[k..] == x[k..] + y && s[..k] == x[..k];
      TailStops(x[k..], y);
      assert prefix <= s <==> prefix <= x;
    } else if k <= |s| {
      assert s[|x|] == y[0] && prefix[|x|] in prefix;
      assert !(prefix <= s);
    }
  }

  lemma {:induction false} FirstOfStops(x: string, y: string, prefixes: seq<string>)
    requires Outside(y) && forall p <- prefixes :: forall c <- p :: IsBodyChar(c)
    ensures FirstOf(x + y, prefixes) == FirstOf(x, prefixes)
  {
    if prefixes != [] {
      hide After, IsBodyChar;
      assert prefixes[0] in prefixes && forall p <- prefixes[1..] :: p in prefixes;
      AfterStops(x, y, prefixes[0]);
      FirstOfStops(x, y, prefixes[1..]);
    }
  }

  lemma LongPrefixesAreBody()
    ensures forall p <- LONG_PREFIXES :: forall c <- p :: IsBodyChar(c)
  {
  }

  lemma BodyStops(x: string, y: string)
    requires Outside(y) && x != ""
    ensures Body(x + y) == Body(x)
  {
    hide After, FirstOf;
    LongPrefixesAreBody();
    FirstOfStops(x, y, LONG_PREFIXES);
    if IsShortPrefix(x[0]) {
      assert (x + y)[..1] == x[..1] == [x[0]];
      AfterStops(x, y, [x[0]]);
    }
  }

  /** In front of foreign text, matches are what they are at the end of the text. */
  lemma MatchStops(x: string, y: string, word: WordClass)
    requires Foreign(y, word) && x != ""
    ensures MatchLen(x + y, word) == MatchLen(x, word)
  {
    hide Body;
    BodyStops(x, y);
    var n := Body(x);
    if n.Some? {
      assert n.value < |x| ==> (x + y)[n.value] == x[n.value];
      assert n.value == |x| && y != "" ==> (x + y)[n.value] == y[0];
    }
  }

  lemma {:induction false} FindAllSplits(x: string, y: string, word: WordClass)
    requires Foreign(y, word)
    ensures FindAll(x + y, word) == FindAll(x, word) + FindAll(y, word)
    decreases |x|
  {
    hide MatchLen, Foreign;
    if x == "" {
      assert x + y == y;
    } else {
      MatchStops(x, y, word);
      var n := MatchLen(x, word);
      if n.Some? {
        assert (x + y)[n.value..] == x[n.value..] + y && (x + y)[..n.value] == x[..n.value];
        FindAllSplits(x[n.value..], y, word);
      } else {
        assert (x + y)[1..] == x[1..] + y;
        FindAllSplits(x[1..], y, word);
      }
    }
  }

  /** A text whose characters are all foreign holds no reference, and neither does it lend one to what follows. */
  lemma {:induction false} ForeignPrefix(m: string, y: string, word: WordClass)
    requires forall c <- m :: !IsDigit(c) && !('a' <= c <= 'z')
    ensures FindAll(m + y, word) == FindAll(y, word)
    decreases |m|
  {
    if m == "" {
      assert m + y == y;
    } else {
      var s := m + y;
      assert m[0] in m && s[0] == m[0] && s[1..] == m[1..] + y;
      NoBodyHere(s, word);
      ForeignPrefix(m[1..], y, word);
    }
  }

  lemma NoBodyHere(s: string, word: WordClass)
    requires s != "" && !('a' <= s[0] <= 'z')
    ensures MatchLen(s, word).None?
  {
    hide After;
    forall p | p in LONG_PREFIXES ensures After(s, p).None? {
      NotAfter(s, p);
    }
    NoneOf(s, LONG_PREFIXES);
  }

  lemma NotAfter(s: string, prefix: string)
    requires s != "" && prefix != "" && !('a' <= s[0] <= 'z') && 'a' <= prefix[0] <= 'z'
    ensures After(s, prefix).None?
  {
  }

  lemma {:induction false} NoneOf(s: string, prefixes: seq<string>)
    requires forall p <- prefixes :: After(s, p).None?
    ensures FirstOf(s, prefixes).None?
  {
    if prefixes != [] {
      hide After;
      assert prefixes[0] in prefixes && forall p <- prefixes[1..] :: p in prefixes;
      NoneOf(s, prefixes[1..]);
    }
  }

  // ---- what a replacement leaves ----

  lemma {:induction false} SubAtFirstMatch(s: string, word: WordClass)
    ensures
      var i := FirstMatch(s, word);
      if i == |s| then Sub(s, word) == s && FindAll(s, word) == []
      else
        var n := MatchLen(s[i..], word).value;
        Sub(s, word) == s[..i] + MARK + Sub(s[i + n..], word)
  {
    hide MatchLen, Sub, FindAll, FirstMatch, MARK;
    if s == "" {
      NothingToSub(word);
    } else if MatchLen(s, word).Some? {
      TakeOne(s, word);
      assert s[0..] == s && s[..0] == "";
    } else {
      SubAtFirstMatch(s[1..], word);
      SkipOne(s, word);
      var i := FirstMatch(s, word);
      if i == |s| {
        assert s == [s[0]] + s[1..];
      } else {
        var n := MatchLen(s[i..], word).value;
        assert s[1..][i - 1 + n..] == s[i + n..] && s[..i] == [s[0]] + s[1..][..i - 1];
      }
    }
  }

  lemma NothingToSub(word: WordClass)
    ensures FirstMatch("", word) == 0 && Sub("", word) == "" && FindAll("", word) == []
  {
  }

  lemma TakeOne(s: string, word: WordClass)
    requires s != "" && MatchLen(s, word).Some?
    ensures FirstMatch(s, word) == 0
    ensures Sub(s, word) == MARK + Sub(s[MatchLen(s, word).value..], word)
    ensures FindAll(s, word) == [s[..MatchLen(s, word).value]] + FindAll(s[MatchLen(s, word).value..], word)
  {
    hide MatchLen, MARK;
  }

  lemma SkipOne(s: string, word: WordClass)
    requires s != "" && MatchLen(s, word).None?
    ensures FirstMatch(s, word) == 1 + FirstMatch(s[1..], word)
    ensures Sub(s, word) == [s[0]] + Sub(s[1..], word) && FindAll(s, word) == FindAll(s[1..], word)
    ensures forall i | 1 <= i <= |s| :: s[1..][i - 1..] == s[i..]
  {
    hide MatchLen;
  }

  lemma MarkIsForeign(y: string, word: WordClass)
    requires !word('[')
    ensures Foreign(MARK + y, word)
    ensures FindAll(MARK + y, word) == FindAll(y, word)
  {
    assert (MARK + y)[0] == '[';
    ForeignPrefix(MARK, y, word);
  }

  /** The references that a replacement leaves in the text are exactly the ones it uncovers. */
  lemma {:induction false} SubLeavesUncovered(s: string, word: WordClass)
    requires !word('[')
    ensures FindAll(Sub(s, word), word) == Uncovered(s, word)
    decreases |s|
  {
    hide MatchLen, FindAll, Sub, MARK, Uncovered, FirstMatch, Foreign;
    SubAtFirstMatch(s, word);
    var i := FirstMatch(s, word);
    if i == |s| {
      UncoveredNothing(s, word);
    } else {
      var n := MatchLen(s[i..], word).value;
      UncoveredAt(s, i, n, word);
      var rest := Sub(s[i + n..], word);
      SubLeavesUncovered(s[i + n..], word);
      MarkIsForeign(rest, word);
      FindAllSplits(s[..i], MARK + rest, word);
      assert s[..i] + MARK + rest == s[..i] + (MARK + rest);
    }
  }

  // ---- a concrete case ----

  /** Two references without a gap between them. */
  const JOINED := "p1_abcdefp2_abcdef"

  lemma NoLongPrefix(s: string)
    requires |s| >= 2 && 'a' <= s[0] <= 'f' && !(s[0] == 'a' && s[1] == 'c')
    ensures FirstOf(s, LONG_PREFIXES).None?
  {
    forall p | p in LONG_PREFIXES ensures After(s, p).None? {
      assert |p| >= 2 && (p[0] != s[0] || p[1] != s[1]);
    }
    NoneOf(s, LONG_PREFIXES);
  }

  lemma NoneInside(i: nat, word: WordClass)
    requires 1 <= i < 9
    ensures MatchLen(JOINED[i..], word).None?
  {
    var s := JOINED[i..];
    if i < 3 {
      NoBodyHere(s, word);
    } else {
      assert s[0] == JOINED[i] && s[1] == JOINED[i + 1];
      NoLongPrefix(s);
      assert !IsDigit(s[1..][0]);
      assert Digits(s[1..]) == 0;
    }
  }

  lemma TailOfReference(s: string)
    requires |s| >= 8 && IsDigit(s[0]) && s[1] == '_' && forall i | 2 <= i < 8 :: IsHex(s[i])
    ensures Tail(s) == Some(8)
  {
    assert s[1..][0] == '_';
    assert Digits(s[1..]) == 0 && Digits(s) == 1;
  }

  lemma BodyOfReference(s: string)
    requires |s| >= 9 && s[0] == 'p' && IsDigit(s[1]) && s[2] == '_' && forall i | 3 <= i < 9 :: IsHex(s[i])
    ensures Body(s) == Some(9)
  {
    assert s[1..][0] == s[1] && s[1..][1] == s[2] && forall i | 2 <= i < 8 :: s[1..][i] == s[i + 1];
    TailOfReference(s[1..]);
    assert s[..1] <= s && |s[..1]| == 1;
  }

  /**
    In two references without a gap only the second is ever seen; once it is replaced, the first comes
    to light in the text that was meant to be free of references.
  */
  lemma ReplacementUncovers(word: WordClass)
    requires word('p') && !word('[')
    ensures FindAll(JOINED, word) == [JOINED[9..]]
    ensures FindAll(Sub(JOINED, word), word) == [JOINED[..9]]
  {
    hide FindAll, Sub, FirstMatch, Body, Tail;
    var s, second := JOINED, JOINED[9..];
    BodyOfReference(s);
    BodyOfReference(second);
    BodyOfReference(s[..9]);
    assert MatchLen(s, word).None? && MatchLen(second, word) == Some(9) && MatchLen(s[..9], word) == Some(9);
    TakeOne(second, word);
    TakeOne(s[..9], word);
    NothingToSub(word);
    assert second[9..] == "" && s[..9][9..] == "" && second[..9] == second && s[..9][..9] == s[..9];
    SkipTo(9, word);
    UncoveredAt(s, 9, 9, word);
    UncoveredNothing("", word);
    SubLeavesUncovered(s, word);
  }

  lemma {:induction false} SkipTo(k: nat, word: WordClass)
    requires 1 <= k <= 9 && word('p')
    ensures FindAll(JOINED, word) == FindAll(JOINED[k..], word)
    ensures FirstMatch(JOINED, word) == k + FirstMatch(JOINED[k..], word)
  {
    hide FindAll, Sub, FirstMatch, Body, MatchLen;
    if k == 1 {
      FirstIsNoMatch(word);
      SkipOne(JOINED, word);
    } else {
      SkipTo(k - 1, word);
      NoneInside(k - 1, word);
      SkipOne(JOINED[k - 1..], word);
      assert JOINED[k - 1..][1..] == JOINED[k..];
    }
  }

  lemma FirstIsNoMatch(word: WordClass)
    requires word('p')
    ensures MatchLen(JOINED, word).None?
  {
    BodyOfReference(JOINED);
  }

  lemma UncoveredAt(s: string, i: nat, n: nat, word: WordClass)
    requires i < |s| && FirstMatch(s, word) == i && MatchLen(s[i..], word) == Some(n)
    ensures Uncovered(s, word) == FindAll(s[..i], word) + Uncovered(s[i + n..], word)
  {
    hide MatchLen, FindAll, FirstMatch;
  }

  lemma UncoveredNothing(s: string, word: WordClass)
    requires FirstMatch(s, word) == |s|
    ensures Uncovered(s, word) == []
  {
    hide MatchLen, FindAll, FirstMatch;
  }

  // ---- what is found ----

  const PREFIXES: seq<string> :=
    ["g", "f", "p", "c", "e", "r", "q", "account", "activity", "target", "post", "page", "report"]

  /** The shape of a reference. */
  ghost predicate Shaped(t: string, prefix: string, digits: string, hex: string) {
    && prefix in PREFIXES && digits != "" && |hex| == 6
    && (forall c <- digits :: IsDigit(c)) && (forall c <- hex :: IsHex(c))
    && t == prefix + digits + "_" + hex
  }

  ghost predicate IsShaped(t: string) {
    exists prefix, digits, hex :: Shaped(t, prefix, digits, hex)
  }

  lemma {:induction false} DigitsAre(s: string)
    ensures forall i | 0 <= i < Digits(s) :: IsDigit(s[i])
    ensures Digits(s) < |s| ==> !IsDigit(s[Digits(s)])
  {
    if s != "" && IsDigit(s[0]) {
      DigitsAre(s[1..]);
    }
  }

  lemma AfterIsShaped(s: string, prefix: string)
    requires prefix in PREFIXES && After(s, prefix).Some?
    ensures IsShaped(s[..After(s, prefix).value])
  {
    hide PREFIXES;
    var rest, n := s[|prefix|..], After(s, prefix).value;
    var d := Digits(rest);
    DigitsAre(rest);
    assert s[..|prefix|] == prefix && rest[d] == '_';
    assert s[..n] == prefix + rest[..d] + "_" + rest[d + 1..d + 7];
    assert Shaped(s[..n], prefix, rest[..d], rest[d + 1..d + 7]);
  }

  lemma {:induction false} FirstOfIsShaped(s: string, prefixes: seq<string>)
    requires FirstOf(s, prefixes).Some? && forall p <- prefixes :: p in PREFIXES
    ensures IsShaped(s[..FirstOf(s, prefixes).value])
  {
    hide After, IsShaped, PREFIXES;
    assert prefixes[0] in prefixes && forall p <- prefixes[1..] :: p in prefixes;
    if After(s, prefixes[0]).Some? {
      AfterIsShaped(s, prefixes[0]);
    } else {
      FirstOfIsShaped(s, prefixes[1..]);
    }
  }

  lemma BodyIsShaped(s: string)
    requires Body(s).Some?
    ensures IsShaped(s[..Body(s).value])
  {
    hide After, IsShaped, FirstOf;
    if s != "" && IsShortPrefix(s[0]) && After(s, s[..1]).Some? {
      assert s[..1] == [s[0]];
      AfterIsShaped(s, s[..1]);
    } else {
      FirstOfIsShaped(s, LONG_PREFIXES);
    }
  }

  /** Whatever is taken for a reference has the shape of one. */
  lemma {:induction false} FoundIsShaped(s: string, word: WordClass)
    ensures forall t <- FindAll(s, word) :: IsShaped(t)
    decreases |s|
  {
    hide IsShaped, Body;
    if s != "" {
      var n := MatchLen(s, word);
      if n.Some? {
        BodyIsShaped(s);
        FoundIsShaped(s[n.value..], word);
      } else {
        FoundIsShaped(s[1..], word);
      }
    }
  }

  lemma {:induction false} DigitsOf(digits: string, rest: string)
    requires (forall c <- digits :: IsDigit(c)) && rest != "" && !IsDigit(rest[0])
    ensures Digits(digits + rest) == |digits|
  {
    if digits == "" {
      assert digits + rest == rest;
    } else {
      assert digits[0] in digits && (digits + rest)[1..] == digits[1..] + rest;
      DigitsOf(digits[1..], rest);
    }
  }

  lemma AfterPrefix(t: string, prefix: string, digits: string, hex: string)
    requires Shaped(t, prefix, digits, hex)
    ensures After(t, prefix) == Some(|t|)
  {
    var rest := "_" + hex;
    DigitsOf(digits, rest);
    assert t[|prefix|..] == digits + rest && t[..|prefix|] == prefix;
    forall i | |digits| + 1 <= i < |digits| + 7 ensures IsHex((digits + rest)[i]) {
      assert (digits + rest)[i] == hex[i - |digits| - 1] && hex[i - |digits| - 1] in hex;
    }
  }

  lemma LongPrefixesDiffer(j: nat, k: nat)
    requires j < k < |LONG_PREFIXES|
    ensures |LONG_PREFIXES[j]| >= 4 && |LONG_PREFIXES[k]| >= 4
    ensures LONG_PREFIXES[j][0] != LONG_PREFIXES[k][0] || LONG_PREFIXES[j][2] != LONG_PREFIXES[k][2]
  {
  }

  lemma {:induction false} FirstOfAt(s: string, prefixes: seq<string>, k: nat)
    requires k < |prefixes| && After(s, prefixes[k]).Some? && forall j | 0 <= j < k :: After(s, prefixes[j]).None?
    ensures FirstOf(s, prefixes) == After(s, prefixes[k])
  {
    hide After;
    if k > 0 {
      FirstOfAt(s, prefixes[1..], k - 1);
    }
  }

  lemma LongIsBody(t: string, k: nat, digits: string, hex: string)
    requires k < |LONG_PREFIXES| && Shaped(t, LONG_PREFIXES[k], digits, hex)
    ensures Body(t) == Some(|t|)
  {
    hide LONG_PREFIXES, PREFIXES;
    var prefix := LONG_PREFIXES[k];
    AfterPrefix(t, prefix, digits, hex);
    LongSecond(k);
    assert t[1] == prefix[1] && After(t, t[..1]).None?;
    forall j | 0 <= j < k ensures After(t, LONG_PREFIXES[j]).None? {
      LongPrefixesDiffer(j, k);
      assert t[0] == prefix[0] && t[2] == prefix[2];
    }
    FirstOfAt(t, LONG_PREFIXES, k);
  }

  lemma LongSecond(k: nat)
    requires k < |LONG_PREFIXES|
    ensures |LONG_PREFIXES[k]| >= 4 && !IsDigit(LONG_PREFIXES[k][1])
  {
  }

  lemma PrefixesSplit(prefix: string)
    requires prefix in PREFIXES
    ensures (|prefix| == 1 && IsShortPrefix(prefix[0])) || exists k: nat :: k < |LONG_PREFIXES| && LONG_PREFIXES[k] == prefix
  {
    if |prefix| != 1 {
      var i :| 0 <= i < |PREFIXES| && PREFIXES[i] == prefix;
      assert i >= 7 && LONG_PREFIXES[i - 7] == prefix;
    }
  }

  lemma ShapedIsBody(t: string, prefix: string, digits: string, hex: string)
    requires Shaped(t, prefix, digits, hex)
    ensures Body(t) == Some(|t|)
  {
    hide LONG_PREFIXES, PREFIXES;
    PrefixesSplit(prefix);
    AfterPrefix(t, prefix, digits, hex);
    if |prefix| == 1 && IsShortPrefix(prefix[0]) {
      assert t[..1] == prefix && t[0] == prefix[0];
    } else {
      var k: nat :| k < |LONG_PREFIXES| && LONG_PREFIXES[k] == prefix;
      LongIsBody(t, k, digits, hex);
    }
  }

  /** A text that has the shape of a reference, in quotes as JSON has it, is found and takes nothing else with it. */
  lemma QuotedIsFound(x: string, t: string, y: string, word: WordClass)
    requires IsShaped(t) && !word('"')
    ensures FindAll(x + "\"" + t + "\"" + y, word) == FindAll(x, word) + [t] + FindAll(y, word)
  {
    hide Body, FindAll;
    var prefix, digits, hex :| Shaped(t, prefix, digits, hex);
    ShapedIsBody(t, prefix, digits, hex);
    var end, rest := "\"" + y, "\"" + (t + ("\"" + y));
    assert x + "\"" + t + "\"" + y == x + rest;
    FindAllSplits(x, rest, word);
    ForeignPrefix("\"", t + end, word);
    FindAllSplits(t, end, word);
    ForeignPrefix("\"", y, word);
    TakeOne(t, word);
    assert t[..|t|] == t && t[|t|..] == "";
    NothingToSub(word);
  }

  /** So every reference that is allocated under a process's nonce is found. */
  lemma IssuedIsFound(x: string, prefix: string, number: nat, nonce: string, y: string, word: WordClass)
    requires prefix in PREFIXES && Tokens.IsNonce(nonce) && !word('"')
    ensures FindAll(x + "\"" + Tokens.Token(prefix, number, nonce) + "\"" + y, word)
         == FindAll(x, word) + [Tokens.Token(prefix, number, nonce)] + FindAll(y, word)
  {
    hide FindAll, PREFIXES;
    assert Shaped(Tokens.Token(prefix, number, nonce), prefix, Tokens.Decimal(number), nonce);
    QuotedIsFound(x, Tokens.Token(prefix, number, nonce), y, word);
  }
}
