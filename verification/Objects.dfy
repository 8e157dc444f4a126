/** Namespaced names, the objects they name, and the lists a cache returns. */
module Objects {
  import opened Sequences

  datatype Key = Key(ns: string, name: string)

  datatype Object<T> = Object(key: Key, body: T)

  ghost function ObjectsOf<T>(m: map<Key, T>): set<Object<T>> {
    set k | k in m :: Object(k, m[k])
  }

  lemma ObjectsMember<T>(m: map<Key, T>, x: Object<T>)
    ensures x in ObjectsOf(m) <==> x.key in m && m[x.key] == x.body
  {
    if x.key in m && m[x.key] == x.body {
      assert x == Object(x.key, m[x.key]);
    }
  }

  /** A List call returns every object once, in no particular order. */
  ghost predicate IsListing<T>(list: seq<Object<T>>, m: map<Key, T>) {
    multiset(list) == multiset(ObjectsOf(m))
  }

  /** There always is a listing. */
  ghost function SomeListing<T(!new)>(m: map<Key, T>): (list: seq<Object<T>>)
    ensures IsListing(list, m)
  {
    Enumerate(ObjectsOf(m))
  }

  lemma ListingMember<T>(list: seq<Object<T>>, m: map<Key, T>, x: Object<T>)
    requires IsListing(list, m)
    ensures x in list <==> x.key in m && m[x.key] == x.body
  {
    assert x in list <==> x in multiset(list);
    assert x in ObjectsOf(m) <==> x in multiset(ObjectsOf(m));
    ObjectsMember(m, x);
  }

  ghost predicate UniqueKeys<T>(list: seq<Object<T>>) {
    forall x, y :: x in list && y in list && x.key == y.key ==> x == y
  }

  lemma ListingUniqueKeys<T>(list: seq<Object<T>>, m: map<Key, T>)
    requires IsListing(list, m)
    ensures UniqueKeys(list)
  {
    forall x, y | x in list && y in list && x.key == y.key ensures x == y {
      ListingMember(list, m, x);
      ListingMember(list, m, y);
    }
  }
}
