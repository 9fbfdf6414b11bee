/** The idempotency key of a transfer: the sender's id, a colon, and the caller's key. */
module RequestIds {

  function DigitText(d: nat): char
    requires d < 10
  {
    (d + 48) as char
  }

  function NatText(n: nat): string {
    if n < 10 then [DigitText(n)] else NatText(n / 10) + [DigitText(n % 10)]
  }

  function IntText(n: int): string {
    if n < 0 then "-" + NatText(-n) else NatText(n)
  }

  function RequestId(sender: int, key: string): string {
    IntText(sender) + ":" + key
  }

  predicate IsDigits(s: string) {
    forall i | 0 <= i < |s| :: 48 <= s[i] as int < 58
  }

  /** Reads digits back. */
  function ParseNat(s: string): nat
    requires IsDigits(s)
  {
    if s == "" then 0 else ParseNat(s[..|s| - 1]) * 10 + (s[|s| - 1] as int - 48)
  }

  lemma {:induction false} NatTextParses(n: nat)
    ensures NatText(n) != "" && IsDigits(NatText(n)) && ParseNat(NatText(n)) == n
  {
    if n < 10 {
      assert [DigitText(n)][..0] == "";
    } else {
      NatTextParses(n / 10);
      assert NatText(n)[..|NatText(n)| - 1] == NatText(n / 10);
    }
  }

  /** A leading minus sign tells the sign, and the digits tell the size. */
  lemma {:induction false} IntTextShape(n: int)
    ensures IntText(n) != "" && (IntText(n)[0] == '-' <==> n < 0)
    ensures var digits := if n < 0 then IntText(n)[1..] else IntText(n);
            IsDigits(digits) && ParseNat(digits) == if n < 0 then -n else n
    ensures forall i | 0 <= i < |IntText(n)| :: IntText(n)[i] != ':'
  {
    NatTextParses(if n < 0 then -n else n);
    if n < 0 {
      assert IntText(n)[1..] == NatText(-n);
    }
  }

  lemma {:induction false} IntTextInjective(a: int, b: int)
    requires IntText(a) == IntText(b)
    ensures a == b
  {
    IntTextShape(a);
    IntTextShape(b);
  }

  /** The first colon splits a text in one way only. */
  lemma {:induction false} SplitsOnce(s: string, k: string, t: string, l: string)
    requires s + ":" + k == t + ":" + l
    requires forall i | 0 <= i < |s| :: s[i] != ':'
    requires forall i | 0 <= i < |t| :: t[i] != ':'
    ensures s == t && k == l
  {
    var id := s + ":" + k;
    assert id[|s|] == ':' && id[|t|] == ':';
    assert forall i | 0 <= i < |s| :: id[i] == s[i];
    assert forall i | 0 <= i < |t| :: id[i] == t[i];
    assert |s| == |t|;
    assert s == id[..|s|] && t == id[..|t|];
    assert k == id[|s| + 1..] && l == id[|t| + 1..];
  }

  /** Requests of different senders, or with different keys, never share an id. */
  lemma {:induction false} RequestIdInjective(a: int, k: string, b: int, l: string)
    requires RequestId(a, k) == RequestId(b, l)
    ensures a == b && k == l
  {
    IntTextShape(a);
    IntTextShape(b);
    SplitsOnce(IntText(a), k, IntText(b), l);
    IntTextInjective(a, b);
  }
}
