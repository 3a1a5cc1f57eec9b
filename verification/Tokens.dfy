/** The printed form of session references and cursors: prefix, counter, underscore, nonce. */
module Tokens {

  predicate IsDigit(c: char) {
    '0' <= c <= '9'
  }

  function Decimal(n: nat): (s: string)
    ensures |s| >= 1
    ensures forall i :: 0 <= i < |s| ==> IsDigit(s[i])
  {
    var digit := ('0' as int + n % 10) as char;
    if n < 10 then [digit] else Decimal(n / 10) + [digit]
  }

  function Value(s: string): nat
    requires forall i :: 0 <= i < |s| ==> IsDigit(s[i])
  {
    if s == [] then 0
    else
      assert IsDigit(s[|s| - 1]);
      Value(s[..|s| - 1]) * 10 + (s[|s| - 1] as int - '0' as int)
  }

  lemma {:induction false} DecimalRoundTrip(n: nat)
    ensures Value(Decimal(n)) == n
  {
    var d := Decimal(n);
    if n < 10 {
      assert d[..|d| - 1] == [];
    } else {
      DecimalRoundTrip(n / 10);
      assert d[..|d| - 1] == Decimal(n / 10);
    }
  }

  function Token(prefix: string, number: nat, nonce: string): string {
    prefix + Decimal(number) + "_" + nonce
  }

  function PowerOfTen(k: nat): nat {
    if k == 0 then 1 else 10 * PowerOfTen(k - 1)
  }

  lemma {:induction false} DecimalLength(n: nat, k: nat)
    requires k >= 1 && n < PowerOfTen(k)
    ensures |Decimal(n)| <= k
  {
    if n >= 10 {
      assert PowerOfTen(1) == 10 * PowerOfTen(0);
      DecimalLength(n / 10, k - 1);
    }
  }

  /** The nonce of a process: six hexadecimal digits (`secrets.token_hex(3)`). */
  predicate IsNonce(nonce: string) {
    |nonce| == 6 && forall i | 0 <= i < 6 :: IsDigit(nonce[i]) || 'a' <= nonce[i] <= 'f'
  }

  /** A prefix is what `_allocate_token` and its siblings put in front of the counter. */
  predicate IsPrefix(prefix: string) {
    forall i :: 0 <= i < |prefix| ==> !IsDigit(prefix[i])
  }

  /** Two allocations print alike only when prefix, counter and nonce all agree. */
  lemma TokenInjective(p: string, n: nat, x: string, p': string, n': nat, x': string)
    requires IsPrefix(p) && IsPrefix(p')
    requires Token(p, n, x) == Token(p', n', x')
    ensures p == p' && n == n' && x == x'
  {
    var t, d, d' := Token(p, n, x), Decimal(n), Decimal(n');
    assert IsDigit(t[|p|]) && IsDigit(t[|p'|]);
    assert forall i :: 0 <= i < |p| ==> t[i] == p[i];
    assert forall i :: 0 <= i < |p'| ==> t[i] == p'[i];
    assert |p| == |p'|;
    assert p == t[..|p|] == p';
    var rest := t[|p|..];
    assert rest == d + "_" + x == d' + "_" + x';
    assert rest[|d|] == '_' && rest[|d'|] == '_';
    assert forall i :: 0 <= i < |d| ==> rest[i] == d[i];
    assert forall i :: 0 <= i < |d'| ==> rest[i] == d'[i];
    assert |d| == |d'|;
    assert d == rest[..|d|] == d';
    assert x == rest[|d| + 1..] == x';
    DecimalRoundTrip(n);
    DecimalRoundTrip(n');
  }
}
