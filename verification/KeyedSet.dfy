/** A set with an index of its members by key. */
module KeyedSets {
  class KeyedSet<T(!new, ==), K(!new, ==)> {
    const keyReader: T -> K
    var items: set<T>
    var keyed: map<K, set<T>>

    /** The index lists each member under its key, and no key without members. */
    ghost predicate Valid()
      reads this
    {
      && (forall x :: x in items ==> keyReader(x) in keyed && x in keyed[keyReader(x)])
      && (forall k :: k in keyed ==> keyed[k] != {})
      && (forall k, x :: k in keyed && x in keyed[k] ==> x in items && keyReader(x) == k)
    }

    constructor (keyReader: T -> K)
      ensures Valid() && items == {} && this.keyReader == keyReader
    {
      this.keyReader := keyReader;
      items, keyed := {}, map[];
    }

    method HasKey(k: K) returns (found: bool)
      requires Valid()
      ensures found <==> exists x :: x in items && keyReader(x) == k
    {
      found := k in keyed;
      if found {
        var x :| x in keyed[k];
        assert x in items && keyReader(x) == k;
      }
    }

    method Add(x: T)
      requires Valid()
      modifies this
      ensures Valid() && items == old(items) + {x}
    {
      var k := keyReader(x);
      if k !in keyed {
        keyed := keyed[k := {}];
      }
      keyed := keyed[k := keyed[k] + {x}];
      items := items + {x};
    }

    method Discard(x: T)
      requires Valid()
      modifies this
      ensures Valid() && items == old(items) - {x}
    {
      var k := keyReader(x);
      if k in keyed && x in keyed[k] {
        var rest := keyed[k] - {x};
        keyed := if rest == {} then keyed - {k} else keyed[k := rest];
      }
      items := items - {x};
    }
  }
}
