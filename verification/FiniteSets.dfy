/** Sets of numbers. */
module FiniteSets {

  lemma {:induction false} AllBelow(s: set<nat>) returns (n: nat)
    ensures forall x :: x in s ==> x < n
    decreases s
  {
    n := 0;
    if s != {} {
      var x :| x in s;
      var m := AllBelow(s - {x});
      n := if x < m then m else x + 1;
      assert forall y :: y in s ==> y == x || y in s - {x};
    }
  }
}
