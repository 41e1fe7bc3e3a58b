/** How many rounds of a fixed size cover a number of items. */
module Rounds {

  /** floor(k / limit) + 1 rounds take more than k items. */
  lemma EnoughTicks(k: nat, limit: nat, n: nat)
    requires limit > 0 && n >= k / limit + 1
    ensures limit * n >= k + 1
  {
    Scaled(limit, k / limit + 1, n);
    assert limit * (k / limit + 1) == limit * (k / limit) + limit;
  }

  lemma Scaled(c: nat, a: nat, b: nat)
    requires a <= b
    ensures c * a <= c * b
  {
  }
}
