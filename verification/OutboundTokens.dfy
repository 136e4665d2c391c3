/** What `token_hex(16)` draws: 32 lowercase hexadecimal digits. The 4096 largest such tokens share 29 leading
    digits. */
module OutboundTokens {
  import opened Common
  import opened TextOrder

  predicate IsHex(c: char) {
    '0' <= c <= '9' || 'a' <= c <= 'f'
  }

  predicate IsToken(s: string) {
    |s| == 32 && forall i :: 0 <= i < |s| ==> IsHex(s[i])
  }

  function Digit(n: nat): (c: char)
    requires n < 16
    ensures IsHex(c) && ValueOf(c) == n
  {
    if n < 10 then '0' + n as char else 'a' + (n - 10) as char
  }

  function ValueOf(c: char): nat
    requires IsHex(c)
  {
    if c <= '9' then (c - '0') as nat else (c - 'a') as nat + 10
  }

  lemma ValueDetermines(c: char, d: char)
    requires IsHex(c) && IsHex(d) && ValueOf(c) == ValueOf(d)
    ensures c == d
  {
  }

  // ---- The largest tokens ----

  const COUNT: nat := 4096

  const HIGH: string := "fffffffffffffffffffffffffffff"

  function LowDigits(k: nat): string {
    [Digit(k / 256 % 16), Digit(k / 16 % 16), Digit(k % 16)]
  }

  /** The k-th of the 4096 largest tokens. */
  function HighToken(k: nat): string {
    HIGH + LowDigits(k)
  }

  lemma HighTokenIsToken(k: nat)
    ensures IsToken(HighToken(k))
  {
    assert forall i :: 0 <= i < 29 ==> HIGH[i] == 'f';
  }

  lemma DigitsCarry(k: nat)
    requires k < COUNT
    ensures k == 256 * (k / 256 % 16) + 16 * (k / 16 % 16) + k % 16
  {
    assert k / 256 % 16 == k / 256;
    assert k / 16 == 16 * (k / 16 / 16) + k / 16 % 16 && k / 16 / 16 == k / 256;
  }

  lemma LowDigitsInjective(i: nat, k: nat)
    requires i < COUNT && k < COUNT && LowDigits(i) == LowDigits(k)
    ensures i == k
  {
    var a, b := LowDigits(i), LowDigits(k);
    DigitsCarry(i);
    DigitsCarry(k);
    assert a[0] == b[0] && a[1] == b[1] && a[2] == b[2];
  }

  lemma HighTokenInjective(i: nat, k: nat)
    requires i < COUNT && k < COUNT && HighToken(i) == HighToken(k)
    ensures i == k
  {
    assert HighToken(i)[29..] == LowDigits(i) && HighToken(k)[29..] == LowDigits(k);
    LowDigitsInjective(i, k);
  }

  lemma {:induction false} LeqPrefix(p: string, a: string, b: string)
    ensures Leq(p + a, p + b) <==> Leq(a, b)
  {
    if p == "" {
      assert p + a == a && p + b == b;
    } else {
      assert (p + a)[1..] == p[1..] + a && (p + b)[1..] == p[1..] + b;
      LeqPrefix(p[1..], a, b);
    }
  }

  lemma ZerosAreLeast(a: string)
    requires |a| == 3 && forall i :: 0 <= i < 3 ==> IsHex(a[i])
    ensures Leq("000", a)
  {
    assert "000"[1..] == "00" && "00"[1..] == "0" && "0"[1..] == "";
    assert Leq("", a[3..]);
    assert a[2..][1..] == a[3..] && a[1..][1..] == a[2..];
    assert Leq("0", a[2..]);
    assert Leq("00", a[1..]);
  }

  lemma FirstHigh()
    ensures HighToken(0) == HIGH + "000"
  {
  }

  /** A string below the first of them is below all of them. */
  lemma HighTokenAbove(n: string, k: nat)
    requires Less(n, HighToken(0))
    ensures Less(n, HighToken(k))
  {
    FirstHigh();
    ZerosAreLeast(LowDigits(k));
    LeqPrefix(HIGH, "000", LowDigits(k));
    LessTrans(n, HighToken(0), HighToken(k));
  }

  predicate AllF(p: string) {
    forall i :: 0 <= i < |p| ==> p[i] == 'f'
  }

  lemma {:induction false} PrefixForced(p: string, a: string, t: string)
    requires AllF(p) && Leq(p + a, t) && |t| >= |p| && forall i :: 0 <= i < |t| ==> IsHex(t[i])
    ensures t[..|p|] == p
  {
    if p == "" {
    } else {
      assert (p + a)[0] == 'f' && t[0] == 'f';
      assert (p + a)[1..] == p[1..] + a;
      PrefixForced(p[1..], a, t[1..]);
      assert t[..|p|] == [t[0]] + t[1..][..|p| - 1];
      assert p == [p[0]] + p[1..];
    }
  }

  lemma DigitsApart(x: nat, y: nat, z: nat)
    requires x < 16 && y < 16 && z < 16
    ensures var k := 256 * x + 16 * y + z;
            k < COUNT && k / 256 % 16 == x && k / 16 % 16 == y && k % 16 == z
  {
    var k := 256 * x + 16 * y + z;
    assert k / 16 == 16 * x + y;
    assert k / 256 == x;
  }

  lemma DigitsOf(a: char, b: char, c: char) returns (k: nat)
    requires IsHex(a) && IsHex(b) && IsHex(c)
    ensures k < COUNT && LowDigits(k) == [a, b, c]
  {
    DigitsApart(ValueOf(a), ValueOf(b), ValueOf(c));
    k := 256 * ValueOf(a) + 16 * ValueOf(b) + ValueOf(c);
    ValueDetermines(Digit(ValueOf(a)), a);
    ValueDetermines(Digit(ValueOf(b)), b);
    ValueDetermines(Digit(ValueOf(c)), c);
  }

  /** A token that is not below the first of them is one of them. */
  lemma HighTokenOf(t: string) returns (k: nat)
    requires IsToken(t) && Leq(HighToken(0), t)
    ensures k < COUNT && HighToken(k) == t
  {
    FirstHigh();
    assert AllF(HIGH) && |HIGH| == 29;
    PrefixForced(HIGH, "000", t);
    k := DigitsOf(t[29], t[30], t[31]);
    assert t == t[..29] + [t[29], t[30], t[31]];
  }

  /** The first k values of f. */
  function Values(f: nat -> string, k: nat): set<string> {
    if k == 0 then {} else Values(f, k - 1) + {f(k - 1)}
  }

  lemma {:induction false} ValuesAre(f: nat -> string, k: nat, t: string)
    ensures t in Values(f, k) <==> exists i: nat :: i < k && t == f(i)
  {
    if k == 0 {
    } else {
      ValuesAre(f, k - 1, t);
    }
  }

  lemma {:induction false} ValuesCount(f: nat -> string, k: nat)
    requires forall i: nat, j: nat :: i < j < k ==> f(i) != f(j)
    ensures |Values(f, k)| == k
  {
    if k == 0 {
    } else {
      ValuesCount(f, k - 1);
      ValuesAre(f, k - 1, f(k - 1));
    }
  }

  /** The first k of the largest tokens. */
  function HighTokens(k: nat): set<string> {
    Values(HighToken, k)
  }

  lemma HighTokensCount(k: nat)
    requires k <= COUNT
    ensures |HighTokens(k)| == k
  {
    forall i: nat, j: nat | i < j < k ensures HighToken(i) != HighToken(j) {
      if HighToken(i) == HighToken(j) { HighTokenInjective(i, j); }
    }
    ValuesCount(HighToken, k);
  }

  /** Among tokens, fewer than 4096 are above one that is not below the first of the largest. */
  lemma FewAbove(S: set<string>, n: string)
    requires (forall x :: x in S ==> IsToken(x)) && Leq(HighToken(0), n)
    ensures |Above(S, n)| < COUNT
  {
    var rest := HighTokens(COUNT) - {HighToken(0)};
    forall x | x in Above(S, n) ensures x in rest {
      LessTrans(HighToken(0), n, x);
      var k := HighTokenOf(x);
      ValuesAre(HighToken, COUNT, x);
    }
    HighTokensCount(COUNT);
    ValuesAre(HighToken, COUNT, HighToken(0));
    SubsetSize(Above(S, n), rest);
  }

  // ---- A task id for every nonce ----

  function Complement(c: char): char {
    if IsHex(c) then Digit(15 - ValueOf(c)) else c
  }

  function Complemented(s: string): (r: string)
    ensures IsToken(s) ==> IsToken(r) && r != s
  {
    var r := seq(|s|, i requires 0 <= i < |s| => Complement(s[i]));
    assert |s| > 0 ==> r[0] == Complement(s[0]);
    r
  }

  lemma ComplementTwice(c: char)
    ensures Complement(Complement(c)) == c
  {
    if IsHex(c) { ValueDetermines(Complement(Complement(c)), c); }
  }

  lemma ComplementedInjective(s: string, t: string)
    requires Complemented(s) == Complemented(t)
    ensures s == t
  {
    assert |s| == |t|;
    forall i | 0 <= i < |s| ensures s[i] == t[i] {
      assert Complemented(s)[i] == Complement(s[i]) && Complemented(t)[i] == Complement(t[i]);
      ComplementTwice(s[i]);
      ComplementTwice(t[i]);
    }
  }
}
