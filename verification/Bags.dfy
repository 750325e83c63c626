/** Sums of bags of rows over finite sets of keys. */
module Bags {
  import opened Rows

  ghost function SumOver(keys: set<string>, f: string -> multiset<Row>): multiset<Row> {
    if keys == {} then multiset{}
    else
      var k :| k in keys;
      f(k) + SumOver(keys - {k}, f)
  }

  /** The order of summation does not matter. */
  lemma {:induction false} SumOverRemove(keys: set<string>, f: string -> multiset<Row>, k: string)
    requires k in keys
    ensures SumOver(keys, f) == f(k) + SumOver(keys - {k}, f)
    decreases |keys|
  {
    var picked :| picked in keys && SumOver(keys, f) == f(picked) + SumOver(keys - {picked}, f);
    if picked != k {
      SumOverRemove(keys - {picked}, f, k);
      SumOverRemove(keys - {k}, f, picked);
      assert keys - {picked} - {k} == keys - {k} - {picked};
    }
  }

  lemma SumOverNoKeys(f: string -> multiset<Row>)
    ensures SumOver({}, f) == multiset{}
  {
  }

  lemma {:induction false} SumOverUnion(a: set<string>, b: set<string>, f: string -> multiset<Row>)
    requires a !! b
    ensures SumOver(a + b, f) == SumOver(a, f) + SumOver(b, f)
    decreases |a|
  {
    hide SumOver;
    if a == {} {
      assert a + b == b;
      SumOverNoKeys(f);
    } else {
      var k :| k in a;
      SumOverRemove(a, f, k);
      SumOverRemove(a + b, f, k);
      assert a + b - {k} == (a - {k}) + b;
      SumOverUnion(a - {k}, b, f);
    }
  }

  lemma {:induction false} SumOverSame(keys: set<string>, f: string -> multiset<Row>, g: string -> multiset<Row>)
    requires forall k :: k in keys ==> f(k) == g(k)
    ensures SumOver(keys, f) == SumOver(keys, g)
    decreases |keys|
  {
    hide SumOver;
    SumOverNoKeys(f);
    SumOverNoKeys(g);
    if keys != {} {
      var k :| k in keys;
      SumOverRemove(keys, f, k);
      SumOverRemove(keys, g, k);
      SumOverSame(keys - {k}, f, g);
    }
  }

  lemma {:induction false} SumOverNothing(keys: set<string>, f: string -> multiset<Row>)
    requires forall k :: k in keys ==> f(k) == multiset{}
    ensures SumOver(keys, f) == multiset{}
    decreases |keys|
  {
    hide SumOver;
    SumOverNoKeys(f);
    if keys != {} {
      var k :| k in keys;
      SumOverRemove(keys, f, k);
      SumOverNothing(keys - {k}, f);
    }
  }

  /** Keys with nothing to add can be left out. */
  lemma SumOverSubset(few: set<string>, all: set<string>, f: string -> multiset<Row>)
    requires few <= all && forall k :: k in all && k !in few ==> f(k) == multiset{}
    ensures SumOver(all, f) == SumOver(few, f)
  {
    assert all == few + (all - few);
    SumOverUnion(few, all - few, f);
    SumOverNothing(all - few, f);
  }

  /** A sum is empty exactly when every summand is. */
  lemma {:induction false} SumOverEmpty(keys: set<string>, f: string -> multiset<Row>)
    ensures SumOver(keys, f) == multiset{} <==> forall k :: k in keys ==> f(k) == multiset{}
    decreases |keys|
  {
    hide SumOver;
    SumOverNoKeys(f);
    if keys != {} {
      var k :| k in keys;
      SumOverRemove(keys, f, k);
      SumOverEmpty(keys - {k}, f);
      assert f(k) <= SumOver(keys, f) && SumOver(keys - {k}, f) <= SumOver(keys, f);
      assert forall other :: other in keys ==> other == k || other in keys - {k};
    }
  }
}
