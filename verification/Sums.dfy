/** Finite sums over sets. A Go `range` over a map visits the keys in no fixed order, so what
    a counting loop accumulates is a sum over a set, built by taking out one element after
    the other in any order. The lemmas add an element, replace a summand by an equal one, add
    two sums, bound a sum by another, and exchange the order of a double sum, which is how
    Borda points become pairwise counts. */
module Sums {

  ghost function Sum<T(!new)>(s: set<T>, f: T -> int): int
  {
    if s == {} then 0 else
      var x :| x in s;
      f(x) + Sum(s - {x}, f)
  }

  lemma {:induction false} SumRemove<T(!new)>(s: set<T>, f: T -> int, x: T)
    requires x in s
    ensures Sum(s, f) == f(x) + Sum(s - {x}, f)
    decreases |s|
  {
    var y :| y in s && Sum(s, f) == f(y) + Sum(s - {y}, f);
    if y != x {
      SumRemove(s - {y}, f, x);
      SumRemove(s - {x}, f, y);
      assert s - {y} - {x} == s - {x} - {y};
    }
  }

  lemma SumAdd<T(!new)>(s: set<T>, f: T -> int, x: T)
    requires x !in s
    ensures Sum(s + {x}, f) == Sum(s, f) + f(x)
  {
    SumRemove(s + {x}, f, x);
    assert s + {x} - {x} == s;
  }

  lemma {:induction false} SumSame<T(!new)>(s: set<T>, f: T -> int, g: T -> int)
    requires forall x :: x in s ==> f(x) == g(x)
    ensures Sum(s, f) == Sum(s, g)
    decreases |s|
  {
    if s != {} {
      var x :| x in s;
      SumRemove(s, f, x);
      SumRemove(s, g, x);
      SumSame(s - {x}, f, g);
    }
  }

  lemma {:induction false} SumPlus<T(!new)>(s: set<T>, f: T -> int, g: T -> int, h: T -> int)
    requires forall x :: x in s ==> h(x) == f(x) + g(x)
    ensures Sum(s, h) == Sum(s, f) + Sum(s, g)
    decreases |s|
  {
    if s != {} {
      var x :| x in s;
      SumRemove(s, f, x);
      SumRemove(s, g, x);
      SumRemove(s, h, x);
      SumPlus(s - {x}, f, g, h);
    }
  }

  lemma {:induction false} SumConstant<T(!new)>(s: set<T>, f: T -> int, k: int)
    requires forall x :: x in s ==> f(x) == k
    ensures Sum(s, f) == |s| * k
    decreases |s|
  {
    if s != {} {
      var x :| x in s;
      SumRemove(s, f, x);
      SumConstant(s - {x}, f, k);
    }
  }

  lemma {:induction false} SumAtMost<T(!new)>(s: set<T>, f: T -> int, g: T -> int)
    requires forall x :: x in s ==> f(x) <= g(x)
    ensures Sum(s, f) <= Sum(s, g)
    ensures Sum(s, f) == Sum(s, g) ==> forall x :: x in s ==> f(x) == g(x)
    decreases |s|
  {
    if s != {} {
      var x :| x in s;
      SumRemove(s, f, x);
      SumRemove(s, g, x);
      SumAtMost(s - {x}, f, g);
    }
  }

  /** A sum of zeros and ones reaches the number of terms only when every term is one. */
  lemma {:induction false} SumOfBits<T(!new)>(s: set<T>, f: T -> int)
    requires forall x :: x in s ==> f(x) == 0 || f(x) == 1
    ensures 0 <= Sum(s, f) <= |s|
    ensures Sum(s, f) == |s| <==> forall x :: x in s ==> f(x) == 1
    decreases |s|
  {
    if s != {} {
      var x :| x in s;
      SumRemove(s, f, x);
      SumOfBits(s - {x}, f);
    }
  }

  ghost function Row<A(!new), B(!new)>(t: set<B>, f: (A, B) -> int, a: A): int {
    Sum(t, b => f(a, b))
  }

  ghost function Column<A(!new), B(!new)>(s: set<A>, f: (A, B) -> int, b: B): int {
    Sum(s, a => f(a, b))
  }

  lemma RowIs<A(!new), B(!new)>(t: set<B>, f: (A, B) -> int, a: A, g: B -> int)
    requires forall b :: b in t ==> f(a, b) == g(b)
    ensures Row(t, f, a) == Sum(t, g)
  {
    SumSame(t, b => f(a, b), g);
  }

  lemma ColumnIs<A(!new), B(!new)>(s: set<A>, f: (A, B) -> int, b: B, g: A -> int)
    requires forall a :: a in s ==> f(a, b) == g(a)
    ensures Column(s, f, b) == Sum(s, g)
  {
    SumSame(s, a => f(a, b), g);
  }

  /** Exchanging the order of a double sum. */
  lemma {:induction false} SumSwap<A(!new), B(!new)>(s: set<A>, t: set<B>, f: (A, B) -> int,
                                                     rows: A -> int, columns: B -> int)
    requires forall a :: a in s ==> rows(a) == Row(t, f, a)
    requires forall b :: b in t ==> columns(b) == Column(s, f, b)
    ensures Sum(s, rows) == Sum(t, columns)
    decreases |s|
  {
    if s == {} {
      SumConstant(t, columns, 0);
    } else {
      var x :| x in s;
      var first, rest := y => f(x, y), b => Column(s - {x}, f, b);
      SumRemove(s, rows, x);
      SumSwap(s - {x}, t, f, rows, rest);
      forall b | b in t ensures columns(b) == first(b) + rest(b) {
        SumRemove(s, a => f(a, b), x);
      }
      SumPlus(t, first, rest, columns);
    }
  }
}
