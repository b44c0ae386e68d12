/** Types shared by every component of the model. */
module Basics {
  datatype Option<+T> = None | Some(value: T)

  newtype Byte = b: int | 0 <= b < 256
  type Bytes = seq<Byte>

  const MAX_INT64: int := 0x7fff_ffff_ffff_ffff
  const TWO_TO_64: int := 0x1_0000_0000_0000_0000

  /** A Go int64 result: the mathematical value wrapped into two's complement. */
  function Wrap64(x: int): (r: int)
    ensures -MAX_INT64 - 1 <= r <= MAX_INT64
    ensures -MAX_INT64 - 1 <= x <= MAX_INT64 ==> r == x
  {
    (x + MAX_INT64 + 1) % TWO_TO_64 - MAX_INT64 - 1
  }

  lemma WrapAbsorbs(a: int, b: int)
    ensures Wrap64(Wrap64(a) + b) == Wrap64(a + b)
  {
    var shift := MAX_INT64 + 1;
    var q := (a + shift) / TWO_TO_64;
    assert Wrap64(a) == a - q * TWO_TO_64;
    ModShift(a + b + shift, q);
  }

  lemma ModShift(x: int, q: int)
    ensures (x - q * TWO_TO_64) % TWO_TO_64 == x % TWO_TO_64
  {
    var d := x / TWO_TO_64;
    assert x - q * TWO_TO_64 == (d - q) * TWO_TO_64 + x % TWO_TO_64;
  }

  lemma Member<T>(a: set<T>) returns (x: T)
    requires a != {}
    ensures x in a
  {
    assert (forall x :: x !in a) ==> a == {};
    x :| x in a;
  }

  lemma SubsetSize<T>(a: set<T>, b: set<T>)
    requires a <= b
    ensures |a| <= |b|
  {
    assert b == a + (b - a);
  }

  /** Go's map iteration: some element, in no promised order. */
  method Pick<T(==)>(todo: set<T>) returns (x: T)
    requires todo != {}
    ensures x in todo
  {
    ghost var some := Member(todo);
    x :| x in todo;
  }

  function OrZero(o: Option<int>): int {
    if o.Some? then o.value else 0
  }

  /** A sum over a set, whatever the order it is added in; an undefined term adds nothing. */
  ghost function SumOver<T>(s: set<T>, f: T -> Option<int>): int {
    if s == {} then 0
    else
      assert (forall x :: x !in s) ==> s == {};
      var x :| x in s;
      OrZero(f(x)) + SumOver(s - {x}, f)
  }

  lemma {:induction false} SumWithout<T>(s: set<T>, f: T -> Option<int>, x: T)
    requires x in s
    ensures SumOver(s, f) == OrZero(f(x)) + SumOver(s - {x}, f)
    decreases s
  {
    var p :| p in s && SumOver(s, f) == OrZero(f(p)) + SumOver(s - {p}, f);
    if p != x {
      SumWithout(s - {p}, f, x);
      SumWithout(s - {x}, f, p);
      assert s - {p} - {x} == s - {x} - {p};
    }
  }

  lemma SumWith<T>(s: set<T>, f: T -> Option<int>, x: T)
    requires x !in s
    ensures SumOver(s + {x}, f) == SumOver(s, f) + OrZero(f(x))
  {
    SumWithout(s + {x}, f, x);
    assert s + {x} - {x} == s;
  }

  lemma {:induction false} SameTermsSameSum<T>(s: set<T>, f: T -> Option<int>, g: T -> Option<int>)
    requires forall x :: x in s ==> f(x) == g(x)
    ensures SumOver(s, f) == SumOver(s, g)
    decreases s
  {
    if s != {} {
      var x := Member(s);
      SumWithout(s, f, x);
      SumWithout(s, g, x);
      SameTermsSameSum(s - {x}, f, g);
    }
  }
}
