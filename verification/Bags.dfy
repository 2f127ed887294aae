// Counting what the elements of a sequence carry.
module Bags {
  function Flag(b: bool): nat {
    if b then 1 else 0
  }

  function Bag<T>(s: seq<T>, f: T -> multiset<nat>): multiset<nat> {
    if s == [] then multiset{} else f(s[0]) + Bag(s[1..], f)
  }

  // How often `k` is carried.
  function Count<T>(s: seq<T>, f: T -> multiset<nat>, k: nat): nat {
    Bag(s, f)[k]
  }

  lemma {:induction false} BagAppend<T>(s: seq<T>, x: T, f: T -> multiset<nat>)
    ensures Bag(s + [x], f) == Bag(s, f) + f(x)
  {
    if s == [] {
      assert [x][1..] == [];
    } else {
      BagAppend(s[1..], x, f);
      assert (s + [x])[1..] == s[1..] + [x];
    }
  }

  lemma {:induction false} BagUpdate<T>(s: seq<T>, i: nat, x: T, f: T -> multiset<nat>)
    requires i < |s|
    ensures Bag(s[i := x], f) + f(s[i]) == Bag(s, f) + f(x)
    ensures f(s[i]) <= Bag(s, f)
  {
    var t := s[i := x];
    if i == 0 {
      assert t[1..] == s[1..];
    } else {
      BagUpdate(s[1..], i - 1, x, f);
      assert t[1..] == s[1..][i - 1 := x];
      assert s[1..][i - 1] == s[i];
      var rest, rest' := Bag(s[1..], f), Bag(t[1..], f);
      assert rest' + f(s[i]) == rest + f(x);
      calc {
        Bag(t, f) + f(s[i]);
        { assert t[0] == s[0]; }
        f(s[0]) + rest' + f(s[i]);
        f(s[0]) + (rest' + f(s[i]));
        f(s[0]) + (rest + f(x));
        f(s[0]) + rest + f(x);
        Bag(s, f) + f(x);
      }
    }
  }

  lemma {:induction false} BagEmpty<T>(s: seq<T>, f: T -> multiset<nat>)
    requires forall i :: 0 <= i < |s| ==> f(s[i]) == multiset{}
    ensures Bag(s, f) == multiset{}
  {
    if s == [] {
    } else {
      assert forall i :: 0 <= i < |s[1..]| ==> s[1..][i] == s[i + 1];
      BagEmpty(s[1..], f);
    }
  }

  lemma CountUpdate<T>(s: seq<T>, i: nat, x: T, f: T -> multiset<nat>, k: nat)
    requires i < |s|
    ensures Count(s[i := x], f, k) == Count(s, f, k) - f(s[i])[k] + f(x)[k]
    ensures f(s[i])[k] <= Count(s, f, k)
  {
    BagUpdate(s, i, x, f);
    assert (Bag(s[i := x], f) + f(s[i]))[k] == (Bag(s, f) + f(x))[k];
  }

  lemma CountAppend<T>(s: seq<T>, x: T, f: T -> multiset<nat>, k: nat)
    ensures Count(s + [x], f, k) == Count(s, f, k) + f(x)[k]
  {
    BagAppend(s, x, f);
  }

  lemma CountTail<T>(s: seq<T>, f: T -> multiset<nat>, k: nat)
    requires s != []
    ensures Count(s, f, k) == f(s[0])[k] + Count(s[1..], f, k)
  {
  }

  // ---------------------------------------------------------------- sums

  function Sum<T>(s: seq<T>, f: T -> nat): nat {
    if s == [] then 0 else f(s[0]) + Sum(s[1..], f)
  }

  lemma {:induction false} SumAppend<T>(s: seq<T>, x: T, f: T -> nat)
    ensures Sum(s + [x], f) == Sum(s, f) + f(x)
  {
    if s == [] {
      assert [x][1..] == [];
    } else {
      SumAppend(s[1..], x, f);
      assert (s + [x])[1..] == s[1..] + [x];
    }
  }

  lemma {:induction false} SumUpdate<T>(s: seq<T>, i: nat, x: T, f: T -> nat)
    requires i < |s|
    ensures Sum(s[i := x], f) == Sum(s, f) - f(s[i]) + f(x)
    ensures f(s[i]) <= Sum(s, f)
  {
    var t := s[i := x];
    if i == 0 {
      assert t[1..] == s[1..];
    } else {
      SumUpdate(s[1..], i - 1, x, f);
      assert t[1..] == s[1..][i - 1 := x];
      assert s[1..][i - 1] == s[i];
    }
  }
}
