/** The order texts sort in, by code point, and the sorted list of a set of texts. */
module Ordering {

  predicate Leq(a: string, b: string) {
    a == "" || (b != "" && (a[0] < b[0] || (a[0] == b[0] && Leq(a[1..], b[1..]))))
  }

  lemma {:induction false} LeqTotal(a: string, b: string)
    ensures Leq(a, b) || Leq(b, a)
    ensures Leq(a, b) && Leq(b, a) ==> a == b
  {
    if a != "" && b != "" {
      LeqTotal(a[1..], b[1..]);
      assert a == [a[0]] + a[1..] && b == [b[0]] + b[1..];
    }
  }

  lemma {:induction false} LeqTransitive(a: string, b: string, c: string)
    requires Leq(a, b) && Leq(b, c)
    ensures Leq(a, c)
  {
    if a != "" && a[0] == b[0] && b[0] == c[0] {
      LeqTransitive(a[1..], b[1..], c[1..]);
    }
  }

  ghost predicate Least(s: set<string>, x: string) {
    x in s && forall y | y in s :: Leq(x, y)
  }

  lemma {:induction false} LeastExists(s: set<string>)
    requires s != {}
    ensures exists x :: Least(s, x)
  {
    var a :| a in s;
    if s == {a} {
      LeqTotal(a, a);
      assert Least(s, a);
    } else {
      var rest := s - {a};
      assert rest != {} && rest < s;
      LeastExists(rest);
      var b :| Least(rest, b);
      LeqTotal(a, b);
      LeqTotal(a, a);
      if Leq(a, b) {
        forall y | y in s
          ensures Leq(a, y)
        {
          if y != a {
            LeqTransitive(a, b, y);
          }
        }
        assert Least(s, a);
      } else {
        assert Least(s, b);
      }
    }
  }

  function First(s: set<string>): (x: string)
    requires s != {}
    ensures x in s && forall y | y in s :: Leq(x, y)
  {
    LeastExists(s);
    assert exists x :: x in s && forall y | y in s :: Leq(x, y) by {
      var x :| Least(s, x);
    }
    assert forall x, y | x in s && y in s && Leq(x, y) && Leq(y, x) :: x == y by {
      forall x, y | x in s && y in s && Leq(x, y) && Leq(y, x)
        ensures x == y
      {
        LeqTotal(x, y);
      }
    }
    var x :| x in s && forall y | y in s :: Leq(x, y);
    x
  }

  /** A set of texts in order. */
  function Sorted(s: set<string>): (r: seq<string>)
    ensures forall x :: x in r <==> x in s
    ensures forall i, j | 0 <= i < j < |r| :: Leq(r[i], r[j]) && r[i] != r[j]
  {
    if s == {} then [] else
      var x := First(s);
      var rest := Sorted(s - {x});
      assert s == {x} + (s - {x});
      [x] + rest
  }
}
