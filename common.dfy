/** Helpers shared by every module: optional values, results, and the few
    pieces of Python integer and sequence semantics the models rely on. */
module Common {

  datatype Option<T> = None | Some(value: T)

  datatype Result<T, E> = Ok(value: T) | Err(error: E)

  /** Python's `int(x)` on a float: truncation toward zero. */
  function Trunc(x: real): (n: int)
    ensures x >= 0.0 ==> n >= 0 && n as real <= x < n as real + 1.0
    ensures x < 0.0 ==> n <= 0 && n as real - 1.0 < x <= n as real
  {
    if x >= 0.0 then x.Floor else -((-x).Floor)
  }

  /** Python's `x // y` on floats followed by `int(...)`: the floor of the quotient. */
  function FloorOf(x: real): (n: int)
    ensures n as real <= x < n as real + 1.0
  {
    x.Floor
  }

  function Sum(s: seq<int>): int
  {
    if s == [] then 0 else s[0] + Sum(s[1..])
  }

  function Flatten<T>(ss: seq<seq<T>>): seq<T>
  {
    if ss == [] then [] else ss[0] + Flatten(ss[1..])
  }

  function Fill<T>(n: nat, x: T): (r: seq<T>)
    ensures |r| == n && forall i | 0 <= i < n :: r[i] == x
  {
    seq(n, _ => x)
  }

  lemma {:induction false} SumAppend(a: seq<int>, b: seq<int>)
    ensures Sum(a + b) == Sum(a) + Sum(b)
  {
    if a == [] {
      assert a + b == b;
    } else {
      assert (a + b)[1..] == a[1..] + b;
      SumAppend(a[1..], b);
    }
  }

  lemma {:induction false} FlattenAppend<T>(a: seq<seq<T>>, b: seq<seq<T>>)
    ensures Flatten(a + b) == Flatten(a) + Flatten(b)
  {
    if a == [] {
      assert a + b == b;
    } else {
      assert (a + b)[1..] == a[1..] + b;
      FlattenAppend(a[1..], b);
    }
  }

  lemma FlattenSingle<T>(x: seq<T>)
    ensures Flatten([x]) == x
  {
    assert [x][1..] == [];
  }

  lemma {:induction false} SumFill(n: nat, k: int)
    ensures Sum(Fill(n, k)) == n * k
  {
    if n > 0 {
      assert Fill(n, k)[1..] == Fill(n - 1, k);
      SumFill(n - 1, k);
    }
  }

  /** Non-decreasing order of an integer sequence. */
  predicate NonDecreasing(s: seq<int>)
  {
    forall i, j | 0 <= i <= j < |s| :: s[i] <= s[j]
  }

  lemma FillBounds(n: nat, x: int)
    ensures NonDecreasing(Fill(n, x)) && forall i | 0 <= i < n :: Fill(n, x)[i] == x
  {
  }

  lemma FillAppend<T>(a: nat, b: nat, x: T)
    ensures Fill(a, x) + Fill(b, x) == Fill(a + b, x)
  {
  }

  /** Two ordered runs, the first bounded above and the second bounded below
      by `mid`, concatenate to an ordered run between their bounds. */
  lemma ConcatOrdered(x: seq<int>, y: seq<int>, lo: int, mid: int, hi: int)
    requires NonDecreasing(x) && NonDecreasing(y)
    requires forall i | 0 <= i < |x| :: lo <= x[i] <= mid
    requires forall i | 0 <= i < |y| :: mid <= y[i] <= hi
    requires lo <= mid <= hi
    ensures NonDecreasing(x + y) && forall i | 0 <= i < |x + y| :: lo <= (x + y)[i] <= hi
  {
    var c := x + y;
    forall i, j | 0 <= i <= j < |c| ensures c[i] <= c[j] {
      if j < |x| {
        assert c[i] == x[i] && c[j] == x[j];
      } else if i >= |x| {
        assert c[i] == y[i - |x|] && c[j] == y[j - |x|];
      } else {
        assert c[i] == x[i] && c[j] == y[j - |x|];
      }
    }
    forall i | 0 <= i < |c| ensures lo <= c[i] <= hi {
      if i < |x| {
        assert c[i] == x[i];
      } else {
        assert c[i] == y[i - |x|];
      }
    }
  }

  lemma FlattenPush<T>(ss: seq<seq<T>>, x: seq<T>)
    ensures Flatten(ss + [x]) == Flatten(ss) + x
  {
    FlattenAppend(ss, [x]);
    FlattenSingle(x);
  }

  lemma AppendAssoc<T>(a: seq<T>, b: seq<T>, c: seq<T>)
    ensures a + b + c == a + (b + c)
  {
  }
}
