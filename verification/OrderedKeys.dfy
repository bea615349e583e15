// The first and last entries of an ordered map with integer keys.
module OrderedKeys {
  predicate Greatest(keys: set<int>, k: int) { k in keys && forall j :: j in keys ==> j <= k }

  predicate Least(keys: set<int>, k: int) { k in keys && forall j :: j in keys ==> k <= j }

  lemma {:induction false} GreatestExists(keys: set<int>, a: int) returns (k: int)
    requires a in keys
    ensures Greatest(keys, k)
    decreases |keys|
  {
    k := a;
    if b :| b in keys && b > a {
      k := GreatestExists(keys - {a}, b);
      forall j | j in keys ensures j <= k { assert j == a || j in keys - {a}; }
    }
  }

  lemma {:induction false} LeastExists(keys: set<int>, a: int) returns (k: int)
    requires a in keys
    ensures Least(keys, k)
    decreases |keys|
  {
    k := a;
    if b :| b in keys && b < a {
      k := LeastExists(keys - {a}, b);
      forall j | j in keys ensures k <= j { assert j == a || j in keys - {a}; }
    }
  }

  // rbegin() and begin() of the ordered map.
  function LastKey<T>(m: map<int, T>): (k: int)
    requires m != map[]
    ensures k in m && forall j :: j in m ==> j <= k
  {
    assert exists k :: Greatest(m.Keys, k) by {
      assert (forall a :: a !in m.Keys) ==> m.Keys == {};
      var a :| a in m.Keys;
      var k := GreatestExists(m.Keys, a);
    }
    var k :| Greatest(m.Keys, k);
    k
  }

  function FirstKey<T>(m: map<int, T>): (k: int)
    requires m != map[]
    ensures k in m && forall j :: j in m ==> k <= j
  {
    assert exists k :: Least(m.Keys, k) by {
      assert (forall a :: a !in m.Keys) ==> m.Keys == {};
      var a :| a in m.Keys;
      var k := LeastExists(m.Keys, a);
    }
    var k :| Least(m.Keys, k);
    k
  }
}
