/**
 consensus/helpers.go: the quorum test is written in float64. Here every value is rounded as
 IEEE 754 double precision does, and the test is shown to be the exact 3 * num > 2 * n.
 */
module FloatQuorum {
  import opened Float64
  import Spec = ConsensusSpec

  /** `float64(num) > ByzantineThreshold * float64(n)`, both sides in units of 2^-53. */
  predicate FloatThresholdMet(num: nat, n: nat) {
    RoundEven(num) * TWO_53 > RoundEven(TWO_THIRDS * RoundEven(n))
  }

  /** The float test is the exact one, for every count and every validator set that a double can count. */
  lemma FloatThresholdIsExact(num: nat, n: nat)
    requires n <= TWO_53
    ensures FloatThresholdMet(num, n) <==> Spec.ThresholdMet(num, n)
  {
    hide RoundEven;
    ExactIntegers(num);
    ExactIntegers(n);
    var k := 2 * n / 3;
    if 2 * n == 3 * k {
      assert n == 3 * (n / 3);
      ProductAtMultipleOfThree(n / 3);
    } else {
      ProductBetween(n, k);
    }
  }
}
