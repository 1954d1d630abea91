/** Numbers that are not in use yet. */
module Numbers {

  lemma {:induction false} FreshNumber(used: set<nat>) returns (n: nat)
    ensures forall u :: u in used ==> u < n
    decreases |used|
  {
    n := 0;
    if used != {} {
      var u :| u in used;
      var rest := FreshNumber(used - {u});
      n := if u < rest then rest else u + 1;
      assert used == used - {u} + {u};
    }
  }
}
