/** New identifiers for use in constructed runs. */
module Fresh {
  /** Some natural number is not in a finite set. */
  lemma FreshNumber(used: set<nat>) returns (n: nat)
    ensures n !in used
  {
    var rest := used;
    n := 0;
    while rest != {}
      invariant rest <= used
      invariant forall k | k in used && k !in rest :: k < n
      decreases rest
    {
      var k :| k in rest;
      rest := rest - {k};
      if n <= k {
        n := k + 1;
      }
    }
  }
}
