// Small generic vocabulary shared by the models.
module Prelude {
  datatype Option<+T> = None | Some(value: T) {
    function GetOr(default: T): T {
      if Some? then value else default
    }
  }

  datatype Result<+T, +E> = Ok(value: T) | Err(error: E)

  /** Elements of `s` satisfying `p`, in order. */
  function Filter<T>(p: T -> bool, s: seq<T>): seq<T> {
    if s == [] then [] else (if p(s[0]) then [s[0]] else []) + Filter(p, s[1..])
  }

  function Map<T, U>(f: T -> U, s: seq<T>): (r: seq<U>)
    ensures |r| == |s| && forall i :: 0 <= i < |s| ==> r[i] == f(s[i])
  {
    if s == [] then [] else [f(s[0])] + Map(f, s[1..])
  }

  function Min(a: int, b: int): int { if a < b then a else b }

  function Take<T>(s: seq<T>, n: nat): seq<T> { s[..Min(n, |s|)] }

  ghost predicate NoDuplicates<T>(s: seq<T>) {
    forall i, j :: 0 <= i < j < |s| ==> s[i] != s[j]
  }

  lemma ConcatAssociates<T>(a: seq<T>, b: seq<T>, c: seq<T>)
    ensures a + (b + c) == (a + b) + c
  {
  }

  lemma {:induction false} FilterMember<T>(p: T -> bool, s: seq<T>, x: T)
    ensures x in Filter(p, s) <==> x in s && p(x)
  {
    if s != [] {
      FilterMember(p, s[1..], x);
    }
  }

  function One(b: bool): nat { if b then 1 else 0 }

  lemma {:induction false} FilterGrows<T>(p: T -> bool, s: seq<T>, x: T)
    ensures |Filter(p, s + [x])| == |Filter(p, s)| + One(p(x))
  {
    if s == [] {
      assert s + [x] == [x];
    } else {
      FilterGrows(p, s[1..], x);
      var longer := s + [x];
      assert longer[0] == s[0] && longer[1..] == s[1..] + [x];
      assert |Filter(p, longer)| == One(p(s[0])) + |Filter(p, s[1..] + [x])|;
    }
  }

  /** Putting `x` in the place of one element counts one more or one less. */
  lemma {:induction false} FilterUpdated<T>(p: T -> bool, s: seq<T>, i: nat, x: T)
    requires i < |s|
    ensures |Filter(p, s[i := x])| + One(p(s[i])) == |Filter(p, s)| + One(p(x))
  {
    var changed := s[i := x];
    assert |Filter(p, s)| == One(p(s[0])) + |Filter(p, s[1..])|;
    assert |Filter(p, changed)| == One(p(changed[0])) + |Filter(p, changed[1..])|;
    if i == 0 {
      assert changed[1..] == s[1..];
    } else {
      assert changed[1..] == s[1..][i - 1 := x];
      FilterUpdated(p, s[1..], i - 1, x);
    }
  }

  function Sum(xs: seq<real>): real {
    if xs == [] then 0.0 else Sum(xs[..|xs| - 1]) + xs[|xs| - 1]
  }

  lemma SumAppend(xs: seq<real>, x: real)
    ensures Sum(xs + [x]) == Sum(xs) + x
  {
    assert (xs + [x])[..|xs|] == xs;
  }
}
