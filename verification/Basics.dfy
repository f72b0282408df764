/** Small vocabulary shared by the component models. */
module Basics {
  type Byte = x: int | 0 <= x < 256

  datatype Option<+T> = None | Some(value: T)

  datatype Result<+T, +E> = Ok(value: T) | Err(error: E)
}

/** Counting up, and how often a value occurs in a sequence. */
module Counting {
  /** 0, 1, ... up to but not including `n`. */
  function UpTo(n: nat): (s: seq<nat>)
    ensures |s| == n && forall i :: 0 <= i < n ==> s[i] == i
  {
    seq(n, i requires 0 <= i < n => i)
  }

  ghost function Times<T>(q: seq<T>, x: T): nat {
    if q == [] then 0 else (if q[0] == x then 1 else 0) + Times(q[1..], x)
  }

  lemma {:induction false} TimesJoin<T>(a: seq<T>, b: seq<T>, x: T)
    ensures Times(a + b, x) == Times(a, x) + Times(b, x)
  {
    if a == [] {
      assert a + b == b;
    } else {
      assert (a + b)[1..] == a[1..] + b;
      TimesJoin(a[1..], b, x);
    }
  }

  lemma {:induction false} TimesZero<T>(q: seq<T>, x: T)
    ensures Times(q, x) > 0 <==> x in q
  {
    if q != [] {
      assert q == [q[0]] + q[1..];
      TimesZero(q[1..], x);
    }
  }
}
