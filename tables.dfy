/** The in-memory tables keep a Python `dict[int, T]`. Besides its entries, a dict remembers the
    order in which its keys were first inserted, and `values()` yields entries in that order;
    listings and first-match scans depend on it, so the model keeps that order as `keys`. */
module Tables {

  /** `keys` lists each key of `data` exactly once. */
  ghost predicate InsertionOrdered<T>(keys: seq<int>, data: map<int, T>)
  {
    && (forall i, j :: 0 <= i < j < |keys| ==> keys[i] != keys[j])
    && (forall k :: k in data <==> k in keys)
    && (forall i :: 0 <= i < |keys| ==> keys[i] in data)
  }

  /** Key order after `d[k] = v`: a key already present keeps its place, a new key goes last. */
  function KeysAfterPut<T>(keys: seq<int>, data: map<int, T>, k: int): seq<int>
  {
    if k in data then keys else keys + [k]
  }

  lemma PutKeepsOrder<T>(keys: seq<int>, data: map<int, T>, k: int, v: T)
    requires InsertionOrdered(keys, data)
    ensures InsertionOrdered(KeysAfterPut(keys, data, k), data[k := v])
  {
  }

  /** Key order after deleting every key in `gone`: the survivors keep their relative order. */
  function KeysWithout(keys: seq<int>, gone: set<int>): (r: seq<int>)
    ensures forall k :: k in r <==> k in keys && k !in gone
  {
    if keys == [] then []
    else (if keys[0] in gone then [] else [keys[0]]) + KeysWithout(keys[1..], gone)
  }

  /** One step of `KeysWithout`: the head survives exactly when it is not deleted. */
  lemma KeysWithoutCons(keys: seq<int>, gone: set<int>)
    requires keys != []
    ensures keys[0] in gone ==> KeysWithout(keys, gone) == KeysWithout(keys[1..], gone)
    ensures keys[0] !in gone ==> KeysWithout(keys, gone) == [keys[0]] + KeysWithout(keys[1..], gone)
  {
  }

  lemma {:induction false} KeysWithoutDistinct(keys: seq<int>, gone: set<int>)
    requires forall i, j :: 0 <= i < j < |keys| ==> keys[i] != keys[j]
    ensures var r := KeysWithout(keys, gone); forall i, j :: 0 <= i < j < |r| ==> r[i] != r[j]
  {
    if keys != [] {
      var tail := keys[1..];
      assert forall i, j :: 0 <= i < j < |tail| ==> tail[i] == keys[i + 1] && tail[j] == keys[j + 1];
      KeysWithoutDistinct(tail, gone);
      KeysWithoutCons(keys, gone);
      var rest := KeysWithout(tail, gone);
      if keys[0] !in gone {
        assert keys[0] !in tail by {
          forall j | 0 <= j < |tail| ensures tail[j] != keys[0] {
            assert tail[j] == keys[j + 1];
          }
        }
        assert keys[0] !in rest;
        var r := [keys[0]] + rest;
        forall i, j | 0 <= i < j < |r| ensures r[i] != r[j] {
          assert r[j] == rest[j - 1];
          if i == 0 {
            assert rest[j - 1] in rest;
          } else {
            assert r[i] == rest[i - 1];
          }
        }
      }
    }
  }

  /** Deleting in two rounds is deleting the union. */
  lemma {:induction false} KeysWithoutTwice(keys: seq<int>, a: set<int>, b: set<int>)
    ensures KeysWithout(KeysWithout(keys, a), b) == KeysWithout(keys, a + b)
  {
    if keys != [] {
      KeysWithoutTwice(keys[1..], a, b);
      var head: seq<int> := if keys[0] in a then [] else [keys[0]];
      assert KeysWithout(keys, a) == head + KeysWithout(keys[1..], a);
      if keys[0] in a {
        assert KeysWithout(keys, a) == KeysWithout(keys[1..], a);
      } else {
        assert KeysWithout(keys, a)[0] == keys[0];
        assert KeysWithout(keys, a)[1..] == KeysWithout(keys[1..], a);
      }
    }
  }

  /** Deleting keys that are not there changes nothing. */
  lemma {:induction false} KeysWithoutAbsent(keys: seq<int>, gone: set<int>)
    requires forall i :: 0 <= i < |keys| ==> keys[i] !in gone
    ensures KeysWithout(keys, gone) == keys
  {
    if keys != [] {
      assert keys[0] !in gone;
      KeysWithoutAbsent(keys[1..], gone);
      KeysWithoutCons(keys, gone);
      assert keys == [keys[0]] + keys[1..];
    }
  }

  lemma DeleteKeepsOrder<T>(keys: seq<int>, data: map<int, T>, gone: set<int>)
    requires InsertionOrdered(keys, data)
    ensures InsertionOrdered(KeysWithout(keys, gone), data - gone)
  {
    KeysWithoutDistinct(keys, gone);
  }

  /** One `del d[x]` of a deletion loop that has already removed the keys `gone`: deleting a key
      that is still there removes it from the order, and a key that is gone already changes
      nothing. Either way the order afterwards is the original order without `gone + {x}`. */
  lemma DeleteStep<T>(keys0: seq<int>, data0: map<int, T>, gone: set<int>, x: int)
    requires InsertionOrdered(keys0, data0)
    ensures InsertionOrdered(KeysWithout(keys0, gone), data0 - gone)
    ensures x in data0 - gone ==> KeysWithout(keys0, gone + {x}) == KeysWithout(KeysWithout(keys0, gone), {x})
    ensures x !in data0 - gone ==> KeysWithout(keys0, gone + {x}) == KeysWithout(keys0, gone)
    ensures (data0 - gone) - {x} == data0 - (gone + {x})
  {
    DeleteKeepsOrder(keys0, data0, gone);
    KeysWithoutTwice(keys0, gone, {x});
    var r := KeysWithout(keys0, gone);
    if x !in data0 - gone {
      assert forall i :: 0 <= i < |r| ==> r[i] in r;
      KeysWithoutAbsent(r, {x});
    }
  }

  /** `list(d.values())`: the entries in insertion order. */
  function Values<T>(keys: seq<int>, data: map<int, T>): (r: seq<T>)
    requires forall i :: 0 <= i < |keys| ==> keys[i] in data
    ensures |r| == |keys|
    ensures forall i :: 0 <= i < |keys| ==> r[i] == data[keys[i]]
  {
    seq(|keys|, i requires 0 <= i < |keys| => data[keys[i]])
  }

  /** Every entry of the dictionary is among its values. */
  lemma ValuesCover<T>(keys: seq<int>, data: map<int, T>)
    requires InsertionOrdered(keys, data)
    ensures forall k :: k in data ==> data[k] in Values(keys, data)
  {
    forall k | k in data ensures data[k] in Values(keys, data) {
      var i :| 0 <= i < |keys| && keys[i] == k;
      assert Values(keys, data)[i] == data[k];
    }
  }
}
