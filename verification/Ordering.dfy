/** Least elements of finite sets of integers, the order in which rows are fetched by primary key. */
module Ordering {
  /** Some element of a set that has one. */
  ghost function Any<T>(xs: set<T>): (x: T)
    requires xs != {}
    ensures x in xs
  {
    var x :| x in xs; x
  }

  lemma {:induction false} LeastExists(xs: set<int>)
    requires xs != {}
    ensures exists m :: m in xs && forall x :: x in xs ==> m <= x
  {
    var m := Any(xs);
    var rest := xs - {m};
    if rest != {} {
      LeastExists(rest);
      var n :| n in rest && forall y :: y in rest ==> n <= y;
      var least := if m <= n then m else n;
      assert forall y :: y in xs ==> y == m || y in rest;
      assert least in xs && forall y :: y in xs ==> least <= y;
    } else {
      assert xs == {m};
    }
  }

  function Least(xs: set<int>): (m: int)
    requires xs != {}
    ensures m in xs && forall x :: x in xs ==> m <= x
  {
    LeastExists(xs);
    var m :| m in xs && forall x :: x in xs ==> m <= x;
    m
  }
}
