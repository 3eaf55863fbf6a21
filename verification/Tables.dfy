/** Finite tables that hold one entry for each member of a set. */
module Tables {
  /** `m` maps `id(x)` to `val(x)` for exactly the members `x` of `p`. */
  ghost predicate Holds<X(!new), K(!new), V>(id: X -> K, val: X -> V, p: set<X>, m: map<K, V>) {
    && (forall x :: x in p ==> id(x) in m && m[id(x)] == val(x))
    && (forall k :: k in m ==> exists x :: x in p && id(x) == k)
  }

  ghost predicate Distinct<X(!new), K>(id: X -> K, p: set<X>) {
    forall x, y :: x in p && y in p && id(x) == id(y) ==> x == y
  }

  lemma HoldsAdd<X(!new), K(!new), V>(id: X -> K, val: X -> V, p: set<X>, m: map<K, V>, x: X)
    requires Holds(id, val, p, m) && Distinct(id, p + {x})
    ensures Holds(id, val, p + {x}, m[id(x) := val(x)])
  {
    var q := p + {x};
    assert x in q;
    forall k | k in m && k != id(x) ensures exists y :: y in q && id(y) == k {
      var y :| y in p && id(y) == k;
      assert y in q;
    }
  }

  lemma HoldsRemove<X(!new), K(!new), V>(id: X -> K, val: X -> V, p: set<X>, m: map<K, V>, x: X)
    requires Holds(id, val, p, m) && Distinct(id, p) && x in p
    ensures Holds(id, val, p - {x}, m - {id(x)})
  {
    forall k | k in m && k != id(x) ensures exists y :: y in p - {x} && id(y) == k {
      var y :| y in p && id(y) == k;
      assert y in p - {x};
    }
  }

  lemma HoldsSame<X(!new), K(!new), V>(id: X -> K, val: X -> V, id': X -> K, val': X -> V, p: set<X>, m: map<K, V>)
    requires Holds(id, val, p, m)
    requires forall x :: x in p ==> id(x) == id'(x) && val(x) == val'(x)
    ensures Holds(id', val', p, m)
  {
    forall k | k in m ensures exists y :: y in p && id'(y) == k {
      var y :| y in p && id(y) == k;
      assert id'(y) == k;
    }
  }

  lemma HoldsOnly<X(!new), K(!new), V>(id: X -> K, val: X -> V, p: set<X>, m: map<K, V>, x: X)
    requires Holds(id, val, p, m) && Distinct(id, p + {x})
    ensures x in p <==> id(x) in m
  {
    if id(x) in m {
      var y :| y in p && id(y) == id(x);
      assert y in p + {x} && x in p + {x};
    }
  }
}
