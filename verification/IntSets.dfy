/** Finite sets: the size of a part, and the members of non-empty sets of integers. */
module IntSets {

  lemma Inhabited(s: set<int>)
    ensures s != {} ==> exists x :: x in s
  {
    if forall x :: x !in s {
      assert s == {};
    }
  }

  lemma {:induction false} SizeMonotone<T>(a: set<T>, b: set<T>)
    requires a <= b
    ensures |a| <= |b|
    ensures |a| == |b| ==> a == b
    decreases |a|
  {
    if a != {} {
      var x :| x in a;
      SizeMonotone(a - {x}, b - {x});
      assert a == (a - {x}) + {x} && b == (b - {x}) + {x};
    } else if |b| == 0 {
      assert b == {};
    }
  }

  lemma {:induction false} Maximum(s: set<int>) returns (top: int)
    requires s != {}
    ensures top in s && forall m :: m in s ==> m <= top
    decreases |s|
  {
    Inhabited(s);
    top :| top in s;
    var first, others := top, s - {top};
    if others != {} {
      var rest := Maximum(others);
      if rest > top {
        top := rest;
      }
    }
    forall m | m in s
      ensures m <= top
    {
      assert m == first || m in others;
    }
  }

  lemma {:induction false} Minimum(s: set<int>) returns (low: int)
    requires s != {}
    ensures low in s && forall m :: m in s ==> low <= m
    decreases |s|
  {
    Inhabited(s);
    low :| low in s;
    var first, others := low, s - {low};
    if others != {} {
      var rest := Minimum(others);
      if rest < low {
        low := rest;
      }
    }
    forall m | m in s
      ensures low <= m
    {
      assert m == first || m in others;
    }
  }
}
