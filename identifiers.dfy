/** Account numbers and transaction ids built from the clock and a random draw. */
module Identifiers {
  import opened Decimal

  /** One reading of the clock and of `new Random().nextInt(10000)`. */
  datatype Draw = Draw(millis: nat, random: nat)

  /** `"TXN" + System.currentTimeMillis()`. Nothing checks the result for uniqueness. */
  function TransactionId(millis: nat): (id: string)
    ensures |id| > 3 && id[..3] == "TXN" && AllDigits(id[3..])
    ensures ParseDecimal(id[3..]) == millis
  {
    var digits := DecimalString(millis);
    assert ("TXN" + digits)[3..] == digits;
    ParseDecimalString(millis);
    "TXN" + digits
  }

  /** Two transaction ids coincide exactly when they were made in the same millisecond. */
  lemma TransactionIdCollision(m: nat, n: nat)
    ensures TransactionId(m) == TransactionId(n) <==> m == n
  {
  }

  /** One candidate of the account-number loop:
      `"ACC" + millis + String.format("%04d", random)`. */
  function AccountNumberCandidate(d: Draw): (s: string)
    requires d.random < 10000
    ensures |s| >= 8 && s[..3] == "ACC"
    ensures s[|s| - 4..] == ZeroPad4(d.random) && ParseDecimal(s[|s| - 4..]) == d.random
    ensures s[3..|s| - 4] == DecimalString(d.millis)
  {
    var s := "ACC" + DecimalString(d.millis) + ZeroPad4(d.random);
    assert s[|s| - 4..] == ZeroPad4(d.random);
    assert s[3..|s| - 4] == DecimalString(d.millis);
    s
  }

  /** Distinct draws give distinct candidates; a collision in the store can only
      come from an account made from the very same clock reading and random number. */
  lemma CandidateInjective(d: Draw, e: Draw)
    requires d.random < 10000 && e.random < 10000
    ensures AccountNumberCandidate(d) == AccountNumberCandidate(e) <==> d == e
  {
    var s, t := AccountNumberCandidate(d), AccountNumberCandidate(e);
    if s == t {
      DecimalStringInjective(d.millis, e.millis);
      assert s[3..|s| - 4] == t[3..|t| - 4];
      assert s[|s| - 4..] == t[|t| - 4..];
    }
  }
}
