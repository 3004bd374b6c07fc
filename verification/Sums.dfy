/** Finite sums over id sets: the arithmetic behind every conservation law. */
module Sums {
  import opened Base

  ghost function Sum(keys: set<Id>, f: Id -> int): int
    decreases |keys|
  {
    if keys == {} then 0
    else var k :| k in keys; f(k) + Sum(keys - {k}, f)
  }

  lemma {:induction false} SumPick(keys: set<Id>, f: Id -> int, k: Id)
    requires k in keys
    ensures Sum(keys, f) == f(k) + Sum(keys - {k}, f)
    decreases |keys|
  {
    var c :| c in keys && Sum(keys, f) == f(c) + Sum(keys - {c}, f);
    if c != k {
      SumPick(keys - {c}, f, k);
      SumPick(keys - {k}, f, c);
      assert keys - {c} - {k} == keys - {k} - {c};
    }
  }

  lemma {:induction false} SumSame(keys: set<Id>, f: Id -> int, g: Id -> int)
    requires forall k :: k in keys ==> f(k) == g(k)
    ensures Sum(keys, f) == Sum(keys, g)
    decreases |keys|
  {
    if keys != {} {
      var k :| k in keys;
      SumPick(keys, f, k);
      SumPick(keys, g, k);
      SumSame(keys - {k}, f, g);
    }
  }

  lemma {:induction false} SumSplit(keys: set<Id>, part: set<Id>, f: Id -> int)
    requires part <= keys
    ensures Sum(keys, f) == Sum(part, f) + Sum(keys - part, f)
    decreases |part|
  {
    if part == {} {
      assert keys - part == keys;
    } else {
      var k :| k in part;
      SumPick(keys, f, k);
      SumPick(part, f, k);
      SumSplit(keys - {k}, part - {k}, f);
      assert keys - {k} - (part - {k}) == keys - part;
    }
  }

  lemma {:induction false} SumNonNegative(keys: set<Id>, f: Id -> int)
    requires forall k :: k in keys ==> f(k) >= 0
    ensures Sum(keys, f) >= 0
    decreases |keys|
  {
    if keys != {} {
      var k :| k in keys;
      SumPick(keys, f, k);
      SumNonNegative(keys - {k}, f);
    }
  }

  lemma {:induction false} SumZero(keys: set<Id>, f: Id -> int)
    requires forall k :: k in keys ==> f(k) == 0
    ensures Sum(keys, f) == 0
    decreases |keys|
  {
    if keys != {} {
      var k :| k in keys;
      SumPick(keys, f, k);
      SumZero(keys - {k}, f);
    }
  }
}
