/** Decimal printing, as `format!` does it for `usize`, and the names built from it. */
module Decimal {

  predicate IsDigit(c: char) {
    '0' <= c <= '9'
  }

  function Digit(d: nat): (c: char)
    requires d < 10
    ensures IsDigit(c) && c as int == '0' as int + d
  {
    ('0' as int + d) as char
  }

  function Print(n: nat): (s: string)
    ensures s != [] && forall i :: 0 <= i < |s| ==> IsDigit(s[i])
  {
    if n < 10 then [Digit(n)] else Print(n / 10) + [Digit(n % 10)]
  }

  /** The number a digit string denotes: the left inverse of `Print`. */
  function Read(s: string): int {
    if s == [] then 0 else 10 * Read(s[..|s| - 1]) + (s[|s| - 1] as int - '0' as int)
  }

  lemma {:induction false} ReadPrint(n: nat)
    ensures Read(Print(n)) == n
  {
    if n >= 10 {
      ReadPrint(n / 10);
      var s := Print(n);
      assert s[..|s| - 1] == Print(n / 10);
    } else {
      assert Print(n)[..0] == "";
    }
  }

  /** No number but zero is printed with a zero in front. */
  lemma {:induction false} NoLeadingZero(n: nat)
    ensures Print(n)[0] == '0' ==> n == 0 && Print(n) == "0"
  {
    if n >= 10 {
      NoLeadingZero(n / 10);
    }
  }

  /** How many digits a string starts with. */
  function Leading(s: string): nat {
    if s == [] || !IsDigit(s[0]) then 0 else 1 + Leading(s[1..])
  }

  lemma {:induction false} LeadingOf(a: string, c: string)
    requires forall i :: 0 <= i < |a| ==> IsDigit(a[i])
    requires c == [] || !IsDigit(c[0])
    ensures Leading(a + c) == |a|
  {
    if a == [] {
      assert a + c == c;
    } else {
      assert (a + c)[1..] == a[1..] + c;
      LeadingOf(a[1..], c);
    }
  }

  /** `cell[i]#j`, the name of the j-th attempt at cell i. */
  function CellName(execution: nat, retry: nat): string {
    "cell[" + Print(execution) + "]#" + Print(retry)
  }

  /** Digits end where the first other character starts. */
  lemma DigitsEnd(a: string, c: string, b: string, d: string)
    requires forall i :: 0 <= i < |a| ==> IsDigit(a[i])
    requires forall i :: 0 <= i < |b| ==> IsDigit(b[i])
    requires c == [] || !IsDigit(c[0])
    requires d == [] || !IsDigit(d[0])
    requires a + c == b + d
    ensures a == b && c == d
  {
    LeadingOf(a, c);
    LeadingOf(b, d);
    SamePrefix(a, c, b, d);
  }

  lemma SamePrefix(a: string, c: string, b: string, d: string)
    requires a + c == b + d && |a| == |b|
    ensures a == b && c == d
  {
    assert a == (a + c)[..|a|] && b == (b + d)[..|b|];
    assert c == (a + c)[|a|..] && d == (b + d)[|b|..];
  }

  lemma PrintInjective(m: nat, n: nat)
    requires Print(m) == Print(n)
    ensures m == n
  {
    ReadPrint(m);
    ReadPrint(n);
  }

  lemma CellNameInjective(i: nat, j: nat, k: nat, l: nat)
    requires CellName(i, j) == CellName(k, l)
    ensures i == k && j == l
  {
    var c, d := "]#" + Print(j), "]#" + Print(l);
    assert CellName(i, j) == "cell[" + (Print(i) + c) && CellName(k, l) == "cell[" + (Print(k) + d);
    SamePrefix("cell[", Print(i) + c, "cell[", Print(k) + d);
    DigitsEnd(Print(i), c, Print(k), d);
    SamePrefix("]#", Print(j), "]#", Print(l));
    PrintInjective(i, k);
    PrintInjective(j, l);
  }

  /** `{session}:{counter}`, the id of an outgoing message. */
  function MessageId(session: string, counter: nat): string {
    session + ":" + Print(counter)
  }

  lemma MessageIdInjective(session: string, m: nat, n: nat)
    requires MessageId(session, m) == MessageId(session, n)
    ensures m == n
  {
    assert Print(m) == MessageId(session, m)[|session| + 1..];
    assert Print(n) == MessageId(session, n)[|session| + 1..];
    ReadPrint(m);
    ReadPrint(n);
  }
}
