/** services/payment/src/domain/idempotency.ts: attempt keys `pay:{ride}:{n}`, written and parsed. */
module Idempotency {
  import opened Wrappers

  function DigitChar(d: nat): (c: char)
    requires d < 10
    ensures IsDigit(c) && DigitValue(c) == d
  {
    '0' + d as char
  }

  predicate IsDigit(c: char) {
    '0' <= c <= '9'
  }

  function DigitValue(c: char): nat
    requires IsDigit(c)
  {
    (c - '0') as nat
  }

  predicate AllDigits(s: string) {
    forall i :: 0 <= i < |s| ==> IsDigit(s[i])
  }

  /** The decimal text a template string writes for a whole number. */
  function Decimal(n: nat): (s: string)
    ensures s != "" && AllDigits(s)
  {
    if n < 10 then [DigitChar(n)] else Decimal(n / 10) + [DigitChar(n % 10)]
  }

  /** Number(s) on a string of digits. */
  function Number(s: string): nat
    requires AllDigits(s)
  {
    if s == "" then 0 else 10 * Number(s[..|s| - 1]) + DigitValue(s[|s| - 1])
  }

  lemma {:induction false} NumberOfDecimal(n: nat)
    ensures Number(Decimal(n)) == n
  {
    if n >= 10 {
      NumberOfDecimal(n / 10);
      var s := Decimal(n);
      assert s[..|s| - 1] == Decimal(n / 10);
    } else {
      assert Decimal(n)[..0] == "";
    }
  }

  function IdempotencyKey(rideId: string, attemptN: nat): string {
    "pay:" + rideId + ":" + Decimal(attemptN)
  }

  /** What the dot of a JavaScript regular expression refuses to match. */
  predicate IsLineTerminator(c: char) {
    c == '\n' || c == '\r' || c == '\U{2028}' || c == '\U{2029}'
  }

  predicate DotMatches(s: string) {
    forall i :: 0 <= i < |s| ==> !IsLineTerminator(s[i])
  }

  /** A split of `text` that (.+):(\d+)$ accepts, with the colon at i. */
  predicate SplitsAt(text: string, i: nat) {
    1 <= i < |text| - 1 && text[i] == ':' && DotMatches(text[..i]) && AllDigits(text[i + 1..])
  }

  /** The greedy group: the rightmost accepted colon below `bound`. */
  function GreedySplit(text: string, bound: nat): (r: Option<nat>)
    ensures r.Some? ==> r.value < bound && SplitsAt(text, r.value)
    ensures r.None? ==> forall i: nat :: i < bound ==> !SplitsAt(text, i)
  {
    if bound == 0 then None
    else if SplitsAt(text, bound - 1) then Some(bound - 1)
    else GreedySplit(text, bound - 1)
  }

  datatype Attempt = Attempt(rideId: string, attemptN: nat)

  function ParseIdempotencyKey(key: string): Option<Attempt> {
    if |key| < 4 || key[..4] != "pay:" then None
    else
      var text := key[4..];
      match GreedySplit(text, |text|)
      case None => None
      case Some(i) => Some(Attempt(text[..i], Number(text[i + 1..])))
  }

  /** Only the last colon can be followed by nothing but digits. */
  lemma KeySplits(rideId: string, attemptN: nat, i: nat)
    ensures var text := rideId + ":" + Decimal(attemptN);
      SplitsAt(text, i) <==> i == |rideId| && rideId != "" && DotMatches(rideId)
  {
    var digits := Decimal(attemptN);
    var text := rideId + ":" + digits;
    assert text[..|rideId|] == rideId && text[|rideId| + 1..] == digits;
    assert i < |rideId| ==> text[i + 1..][|rideId| - i - 1] == ':';
    assert |rideId| < i < |text| ==> text[i] == digits[i - |rideId| - 1];
  }

  /** Parsing inverts formatting exactly on the ride ids the pattern's dot can match. */
  lemma ParseInvertsKey(rideId: string, attemptN: nat)
    ensures ParseIdempotencyKey(IdempotencyKey(rideId, attemptN)) == Some(Attempt(rideId, attemptN))
       <==> rideId != "" && DotMatches(rideId)
  {
    var key, text := IdempotencyKey(rideId, attemptN), rideId + ":" + Decimal(attemptN);
    assert key == "pay:" + text && key[..4] == "pay:" && key[4..] == text;
    KeySplits(rideId, attemptN, |rideId|);
    if i :| GreedySplit(text, |text|) == Some(i) {
      KeySplits(rideId, attemptN, i);
      assert text[..i] == rideId && text[i + 1..] == Decimal(attemptN);
      NumberOfDecimal(attemptN);
    }
  }

  lemma LastColon(rideId: string, attemptN: nat)
    ensures var text := rideId + ":" + Decimal(attemptN);
      text[|rideId|] == ':' && forall i :: |rideId| < i < |text| ==> text[i] != ':'
  {
  }

  /** Distinct attempts never share a key, whatever the ride ids contain. */
  lemma KeyInjective(r1: string, n1: nat, r2: string, n2: nat)
    requires IdempotencyKey(r1, n1) == IdempotencyKey(r2, n2)
    ensures r1 == r2 && n1 == n2
  {
    var d1, d2 := Decimal(n1), Decimal(n2);
    var t1, t2 := r1 + ":" + d1, r2 + ":" + d2;
    assert ("pay:" + t1)[4..] == t1 && ("pay:" + t2)[4..] == t2;
    assert IdempotencyKey(r1, n1) == "pay:" + t1 && IdempotencyKey(r2, n2) == "pay:" + t2;
    LastColon(r1, n1);
    LastColon(r2, n2);
    assert |r1| == |r2|;
    assert t1[..|r1|] == r1 && t2[..|r2|] == r2;
    assert t1[|r1| + 1..] == d1 && t2[|r2| + 1..] == d2;
    NumberOfDecimal(n1);
    NumberOfDecimal(n2);
  }
}
