/** Counts and multiset unions over a sequence of processes, and what one process's move does to them. */
module Counting {
  function Count<T>(p: T -> bool, s: seq<T>): nat {
    if s == [] then 0
    else Count(p, s[..|s| - 1]) + if p(s[|s| - 1]) then 1 else 0
  }

  lemma CountAppend<T>(p: T -> bool, s: seq<T>, x: T)
    ensures Count(p, s + [x]) == Count(p, s) + if p(x) then 1 else 0
  {
    assert (s + [x])[..|s|] == s;
  }

  lemma {:induction false} CountUpdate<T>(p: T -> bool, s: seq<T>, i: nat, x: T)
    requires i < |s|
    ensures Count(p, s[i := x]) == Count(p, s) - (if p(s[i]) then 1 else 0) + if p(x) then 1 else 0
  {
    var n := |s| - 1;
    if i == n {
      assert s[i := x][..n] == s[..n];
    } else {
      assert s[i := x][..n] == s[..n][i := x];
      CountUpdate(p, s[..n], i, x);
    }
  }

  // The multiset union of f over s.
  function Bag<T, U(==)>(f: T -> multiset<U>, s: seq<T>): multiset<U> {
    if s == [] then multiset{}
    else Bag(f, s[..|s| - 1]) + f(s[|s| - 1])
  }

  lemma BagAppend<T, U>(f: T -> multiset<U>, s: seq<T>, x: T)
    ensures Bag(f, s + [x]) == Bag(f, s) + f(x)
  {
    assert (s + [x])[..|s|] == s;
  }

  lemma {:induction false} BagUpdate<T, U>(f: T -> multiset<U>, s: seq<T>, i: nat, x: T)
    requires i < |s|
    ensures f(s[i]) <= Bag(f, s)
    ensures Bag(f, s[i := x]) == Bag(f, s) - f(s[i]) + f(x)
  {
    var n := |s| - 1;
    if i == n {
      assert s[i := x][..n] == s[..n];
    } else {
      assert s[i := x][..n] == s[..n][i := x];
      BagUpdate(f, s[..n], i, x);
    }
  }

  // Two processes holding u hold it twice.
  lemma BagTwice<T, U>(f: T -> multiset<U>, s: seq<T>, i: nat, j: nat, u: U)
    requires i < j < |s| && u in f(s[i]) && u in f(s[j])
    ensures Bag(f, s)[u] >= 2
  {
    var n := |s| - 1;
    if j == n {
      BagUpdate(f, s[..n], i, s[i]);
    } else {
      BagTwice(f, s[..n], i, j, u);
    }
  }
}
