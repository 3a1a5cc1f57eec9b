/** The argument checks that every tool shares (`_require_string`, `_require_int`). */
module Arguments {
  import opened Wrappers

  /** What Python's `strip` removes: the Unicode white space and the four separators below the space. */
  predicate IsSpace(c: char) {
    var n := c as int;
    || 0x9 <= n <= 0xD || 0x1C <= n <= 0x20 || n == 0x85 || n == 0xA0 || n == 0x1680
    || 0x2000 <= n <= 0x200A || n == 0x2028 || n == 0x2029 || n == 0x202F || n == 0x205F || n == 0x3000
  }

  function TrimLeft(s: string): (r: string)
    ensures r == [] || !IsSpace(r[0])
  {
    if s == [] then [] else if IsSpace(s[0]) then TrimLeft(s[1..]) else s
  }

  function TrimRight(s: string): (r: string)
    ensures r == [] || !IsSpace(r[|r| - 1])
  {
    if s == [] then [] else if IsSpace(s[|s| - 1]) then TrimRight(s[..|s| - 1]) else s
  }

  function Strip(s: string): string {
    TrimRight(TrimLeft(s))
  }

  lemma StripKeeps(s: string)
    requires s != "" && !IsSpace(s[0]) && !IsSpace(s[|s| - 1])
    ensures Strip(s) == s
  {
  }

  lemma {:induction false} TrimLeftTakesSpace(s: string) returns (space: string)
    ensures s == space + TrimLeft(s) && forall c <- space :: IsSpace(c)
  {
    if s == [] || !IsSpace(s[0]) {
      space := [];
    } else {
      var more := TrimLeftTakesSpace(s[1..]);
      space := [s[0]] + more;
    }
  }

  lemma {:induction false} TrimRightTakesSpace(s: string) returns (space: string)
    ensures s == TrimRight(s) + space && forall c <- space :: IsSpace(c)
    ensures TrimRight(s) != [] ==> TrimRight(s)[0] == s[0]
  {
    if s == [] || !IsSpace(s[|s| - 1]) {
      space := [];
    } else {
      var more := TrimRightTakesSpace(s[..|s| - 1]);
      space := more + [s[|s| - 1]];
      assert s == s[..|s| - 1] + [s[|s| - 1]];
    }
  }

  /** `strip` takes white space off both ends, all of it, and nothing else. */
  lemma StripTakesSpace(s: string) returns (left: string, right: string)
    ensures s == left + Strip(s) + right
    ensures (forall c <- left :: IsSpace(c)) && (forall c <- right :: IsSpace(c))
    ensures Strip(s) != [] ==> !IsSpace(Strip(s)[0]) && !IsSpace(Strip(s)[|Strip(s)| - 1])
  {
    left := TrimLeftTakesSpace(s);
    right := TrimRightTakesSpace(TrimLeft(s));
  }

  function RequireString(s: string): Result<string> {
    if Strip(s) == "" then Err("invalid_arguments") else Ok(Strip(s))
  }

  function RequireInt(n: int, minimum: int, maximum: int): Result<int> {
    if minimum <= n <= maximum then Ok(n) else Err("invalid_arguments")
  }

  function Min(a: int, b: int): int {
    if a < b then a else b
  }
}
