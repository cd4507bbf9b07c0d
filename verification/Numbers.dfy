/** Small arithmetic that several components share. */
module Numbers {

  function Min(a: nat, b: nat): nat {
    if a < b then a else b
  }

  function Abs(x: real): real {
    if x < 0.0 then -x else x
  }

  // ----- how often a value stands in a sequence -----

  lemma CountOfLast<T>(s: seq<T>, x: T, v: T)
    ensures multiset(s + [x])[v] == multiset(s)[v] + if x == v then 1 else 0
  {
    assert multiset(s + [x]) == multiset(s) + multiset{x};
  }

  lemma CountOfBoth<T>(s: seq<T>, t: seq<T>, v: T)
    ensures multiset(s + t)[v] == multiset(s)[v] + multiset(t)[v]
  {
    assert multiset(s + t) == multiset(s) + multiset(t);
  }
}
