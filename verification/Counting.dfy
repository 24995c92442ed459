// How often something occurs in a sequence, and sums over the threads of a system.

module Counting {
  function Occurrences<T(==)>(q: seq<T>, x: T): nat {
    if q == [] then 0 else (if q[0] == x then 1 else 0) + Occurrences(q[1..], x)
  }

  lemma {:induction false} OccurrencesAppend<T>(q: seq<T>, y: T, x: T)
    ensures Occurrences(q + [y], x) == Occurrences(q, x) + if y == x then 1 else 0
  {
    if q == [] {
      assert [] + [y] == [y];
    } else {
      assert (q + [y])[1..] == q[1..] + [y];
      OccurrencesAppend(q[1..], y, x);
    }
  }

  lemma {:induction false} OccursIffIn<T>(q: seq<T>, x: T)
    ensures Occurrences(q, x) > 0 <==> x in q
  {
    if q != [] {
      OccursIffIn(q[1..], x);
    }
  }

  // The sum of f over s.
  function Total<T>(f: T -> nat, s: seq<T>): nat {
    if s == [] then 0 else f(s[0]) + Total(f, s[1..])
  }

  lemma {:induction false} TotalUpdate<T>(f: T -> nat, s: seq<T>, i: nat, x: T)
    requires i < |s|
    ensures Total(f, s[i := x]) == Total(f, s) - f(s[i]) + f(x)
    ensures Total(f, s) >= f(s[i])
  {
    if i > 0 {
      assert s[i := x][1..] == s[1..][i - 1 := x];
      TotalUpdate(f, s[1..], i - 1, x);
    } else {
      assert s[i := x][1..] == s[1..];
    }
  }

  lemma {:induction false} TotalAppend<T>(f: T -> nat, s: seq<T>, x: T)
    ensures Total(f, s + [x]) == Total(f, s) + f(x)
  {
    if s == [] {
      assert [] + [x] == [x];
    } else {
      assert (s + [x])[1..] == s[1..] + [x];
      TotalAppend(f, s[1..], x);
    }
  }

  lemma {:induction false} TotalZero<T>(f: T -> nat, s: seq<T>)
    requires forall i :: 0 <= i < |s| ==> f(s[i]) == 0
    ensures Total(f, s) == 0
  {
    if s != [] {
      TotalZero(f, s[1..]);
    }
  }

  lemma {:induction false} TotalAtMost<T>(f: T -> nat, s: seq<T>)
    requires forall i :: 0 <= i < |s| ==> f(s[i]) <= 1
    ensures Total(f, s) <= |s|
  {
    if s != [] {
      TotalAtMost(f, s[1..]);
    }
  }

  lemma {:induction false} TotalRemove<T>(f: T -> nat, s: seq<T>, i: nat)
    requires i < |s|
    ensures Total(f, s) == f(s[i]) + Total(f, s[..i] + s[i + 1..])
  {
    var rest := s[..i] + s[i + 1..];
    if i == 0 {
      assert rest == s[1..];
    } else {
      TotalRemove(f, s[1..], i - 1);
      assert rest[1..] == s[1..][..i - 1] + s[1..][i..];
    }
  }

  lemma WithoutOne<T>(s: seq<T>, i: nat)
    requires i < |s|
    ensures multiset(s) == multiset{s[i]} + multiset(s[..i] + s[i + 1..])
  {
    assert s == s[..i] + [s[i]] + s[i + 1..];
  }

  lemma Cancel<T>(x: T, a: multiset<T>, b: multiset<T>)
    requires multiset{x} + a == multiset{x} + b
    ensures a == b
  {
    assert multiset{x} + a - multiset{x} == a && multiset{x} + b - multiset{x} == b;
  }

  lemma {:induction false} SameElementsSameTotal<T>(f: T -> nat, a: seq<T>, b: seq<T>)
    requires multiset(a) == multiset(b)
    ensures Total(f, a) == Total(f, b)
    decreases |a|
  {
    if a == [] {
      assert |multiset(b)| == 0;
    } else {
      assert a[0] in multiset(b);
      var i :| 0 <= i < |b| && b[i] == a[0];
      WithoutOne(a, 0);
      WithoutOne(b, i);
      Cancel(a[0], multiset(a[..0] + a[1..]), multiset(b[..i] + b[i + 1..]));
      SameElementsSameTotal(f, a[..0] + a[1..], b[..i] + b[i + 1..]);
      TotalRemove(f, a, 0);
      TotalRemove(f, b, i);
    }
  }

  lemma SomeoneCounts<T>(f: T -> nat, s: seq<T>)
    requires Total(f, s) > 0
    ensures exists i :: 0 <= i < |s| && f(s[i]) > 0
  {
    if forall i :: 0 <= i < |s| ==> f(s[i]) == 0 {
      TotalZero(f, s);
    }
  }
}
