/** Options, results and the few sequence facts the other modules share. */
module Collections {

  datatype Option<+T> = None | Some(value: T)

  datatype Result<+T> = Ok(value: T) | Err(message: string)

  ghost predicate NoDup<T(!new)>(s: seq<T>) {
    forall i, j :: 0 <= i < j < |s| ==> s[i] != s[j]
  }

  /** The elements of s that satisfy p, in order. */
  function Filter<T(!new)>(s: seq<T>, p: T -> bool): (r: seq<T>)
    ensures |r| <= |s|
  {
    if s == [] then []
    else if p(s[0]) then [s[0]] + Filter(s[1..], p)
    else Filter(s[1..], p)
  }

  lemma {:induction false} InFilter<T(!new)>(s: seq<T>, p: T -> bool)
    ensures forall x :: x in Filter(s, p) <==> x in s && p(x)
  {
    if s != [] {
      InFilter(s[1..], p);
    }
  }

  /** What LIMIT n keeps of an ordered result. */
  function FirstN<T>(s: seq<T>, n: nat): (r: seq<T>)
    ensures |r| <= |s| && |r| <= n
  {
    if |s| <= n then s else s[..n]
  }

  /** What LIMIT n leaves behind. */
  function Rest<T>(s: seq<T>, n: nat): seq<T>
  {
    s[|FirstN(s, n)|..]
  }

  lemma {:induction false} FilterAppend<T(!new)>(a: seq<T>, b: seq<T>, p: T -> bool)
    ensures Filter(a + b, p) == Filter(a, p) + Filter(b, p)
  {
    if a == [] {
      assert a + b == b;
    } else {
      assert (a + b)[1..] == a[1..] + b;
      FilterAppend(a[1..], b, p);
    }
  }

  lemma FilterSnoc<T(!new)>(s: seq<T>, i: nat, p: T -> bool)
    requires i < |s|
    ensures Filter(s[..i + 1], p) == Filter(s[..i], p) + (if p(s[i]) then [s[i]] else [])
  {
    assert s[..i + 1] == s[..i] + [s[i]];
    FilterAppend(s[..i], [s[i]], p);
  }

  lemma {:induction false} FilterCongruent<T(!new)>(s: seq<T>, p: T -> bool, q: T -> bool)
    requires forall x :: x in s ==> p(x) == q(x)
    ensures Filter(s, p) == Filter(s, q)
  {
    if s != [] {
      FilterCongruent(s[1..], p, q);
    }
  }

  lemma {:induction false} FilterAll<T(!new)>(s: seq<T>, p: T -> bool)
    requires forall x :: x in s ==> p(x)
    ensures Filter(s, p) == s
  {
    if s != [] {
      FilterAll(s[1..], p);
    }
  }

  lemma {:induction false} FilterNone<T(!new)>(s: seq<T>, p: T -> bool)
    requires forall x :: x in s ==> !p(x)
    ensures Filter(s, p) == []
  {
    if s != [] {
      FilterNone(s[1..], p);
    }
  }

  lemma {:induction false} FilterNoDup<T(!new)>(s: seq<T>, p: T -> bool)
    requires NoDup(s)
    ensures NoDup(Filter(s, p))
  {
    if s != [] {
      forall i, j | 0 <= i < j < |s[1..]| ensures s[1..][i] != s[1..][j] {
        assert s[i + 1] != s[j + 1];
      }
      FilterNoDup(s[1..], p);
      InFilter(s[1..], p);
      assert s[0] !in s[1..];
    }
  }

  /** Striking the first n survivors from the predicate drops them from the result. */
  lemma {:induction false} FilterDropsHead<T(!new)>(s: seq<T>, p: T -> bool, n: nat, q: T -> bool)
    requires NoDup(s) && n <= |Filter(s, p)|
    requires forall x :: x in s ==> (q(x) <==> p(x) && x !in Filter(s, p)[..n])
    ensures Filter(s, q) == Filter(s, p)[n..]
  {
    if s != [] {
      var x, tail := s[0], s[1..];
      assert s == [x] + tail;
      assert x !in tail;
      if p(x) && n > 0 {
        assert Filter(s, p)[..n] == [x] + Filter(tail, p)[..n - 1];
        FilterDropsHead(tail, p, n - 1, q);
      } else if p(x) {
        FilterCongruent(s, p, q);
      } else {
        FilterDropsHead(tail, p, n, q);
      }
    }
  }
}
