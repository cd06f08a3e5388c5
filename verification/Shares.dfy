/** Products and shares of real numbers, kept apart from the proofs that use them. */
module Shares {

  function Times(x: real, y: real): real { x * y }

  lemma ShareIsWhole(n: nat, m: nat)
    requires n <= m
    ensures m > 0 ==> 0.0 <= n as real / m as real <= 1.0 && (n as real / m as real == 1.0 <==> n == m)
  {
    if m > 0 {
      var share := n as real / m as real;
      assert share * m as real == n as real;
    }
  }
}
