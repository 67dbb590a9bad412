/**
 Partitions as an ordered set: a list in key order is determined by its elements.
 */
module PartitionOrder {
  import opened LeaseStore
  import Keys

  // ---------------------------------------------------------------------------------------------
  // Orders
  // ---------------------------------------------------------------------------------------------

  lemma {:induction false} StringsTrichotomy(a: string, b: string)
    ensures Keys.Less(a, b) || a == b || Keys.Less(b, a)
    ensures !Keys.Less(a, a) && !(Keys.Less(a, b) && Keys.Less(b, a))
    decreases |a|
  {
    if a != "" {
      StringsTrichotomy(a[1..], if b == "" then "" else b[1..]);
      if b != "" && a[0] == b[0] && a[1..] == b[1..] {
        assert a == [a[0]] + a[1..] && b == [b[0]] + b[1..];
      }
    }
  }

  lemma {:induction false} StringsTransitive(a: string, b: string, c: string)
    requires Keys.Less(a, b) && Keys.Less(b, c)
    ensures Keys.Less(a, c)
    decreases |a|
  {
    if a != "" && a[0] == b[0] == c[0] {
      StringsTransitive(a[1..], b[1..], c[1..]);
    }
  }

  predicate KeyLess(a: Key, b: Key) {
    Keys.Less(a.topic, b.topic) || (a.topic == b.topic && a.virtualPartition < b.virtualPartition)
  }

  lemma KeysTrichotomy(a: Key, b: Key)
    ensures KeyLess(a, b) || a == b || KeyLess(b, a)
    ensures !KeyLess(a, a) && !(KeyLess(a, b) && KeyLess(b, a))
  {
    StringsTrichotomy(a.topic, b.topic);
    StringsTrichotomy(a.topic, a.topic);
  }

  lemma KeysTransitive(a: Key, b: Key, c: Key)
    requires KeyLess(a, b) && KeyLess(b, c)
    ensures KeyLess(a, c)
  {
    if a.topic != b.topic && b.topic != c.topic {
      StringsTransitive(a.topic, b.topic, c.topic);
    }
  }

  // ---------------------------------------------------------------------------------------------
  // Partitions in order, each once
  // ---------------------------------------------------------------------------------------------

  predicate KeysAscend(keys: seq<Key>) {
    forall i, j | 0 <= i < j < |keys| :: KeyLess(keys[i], keys[j])
  }

  function InsertKey(keys: seq<Key>, key: Key): seq<Key> {
    if keys == [] then [key]
    else if key == keys[0] then keys
    else if KeyLess(key, keys[0]) then [key] + keys
    else [keys[0]] + InsertKey(keys[1..], key)
  }

  lemma {:induction false} InsertKeyKeeps(keys: seq<Key>, key: Key)
    requires KeysAscend(keys)
    ensures KeysAscend(InsertKey(keys, key))
    ensures forall k :: k in InsertKey(keys, key) <==> k in keys || k == key
    decreases |keys|
  {
    if keys != [] {
      KeysTrichotomy(key, keys[0]);
      InsertKeyKeeps(keys[1..], key);
      if KeyLess(key, keys[0]) {
        forall j | 0 <= j < |keys|
          ensures KeyLess(key, keys[j])
        {
          if j > 0 {
            KeysTransitive(key, keys[0], keys[j]);
          }
        }
      } else if key != keys[0] {
        var rest := InsertKey(keys[1..], key);
        forall j | 0 <= j < |rest|
          ensures KeyLess(keys[0], rest[j])
        {
          assert rest[j] in rest;
        }
      }
    }
  }

  /** The partitions as an ordered set. */
  function SortedKeys(keys: seq<Key>): seq<Key> {
    if keys == [] then [] else InsertKey(SortedKeys(keys[..|keys| - 1]), keys[|keys| - 1])
  }

  lemma {:induction false} SortedKeysAre(keys: seq<Key>)
    ensures KeysAscend(SortedKeys(keys))
    ensures forall k :: k in SortedKeys(keys) <==> k in keys
    decreases |keys|
  {
    if keys != [] {
      SortedKeysAre(keys[..|keys| - 1]);
      InsertKeyKeeps(SortedKeys(keys[..|keys| - 1]), keys[|keys| - 1]);
    }
  }

  /** An ascending list is determined by its elements. */
  lemma {:induction false} AscendingKeysAreUnique(a: seq<Key>, b: seq<Key>)
    requires KeysAscend(a) && KeysAscend(b) && forall k :: k in a <==> k in b
    ensures a == b
    decreases |a|
  {
    if a == [] {
      if b != [] {
        HasFirst(b);
      }
    } else {
      HasFirst(a);
      HasFirst(b);
      FirstIsLeast(a, b[0]);
      FirstIsLeast(b, a[0]);
      KeysTrichotomy(a[0], b[0]);
      forall k
        ensures k in a[1..] <==> k in b[1..]
      {
        RestIsTheRest(a, k);
        RestIsTheRest(b, k);
      }
      AscendingKeysAreUnique(a[1..], b[1..]);
      assert a == [a[0]] + a[1..] && b == [b[0]] + b[1..];
    }
  }

  lemma HasFirst(a: seq<Key>)
    requires a != []
    ensures a[0] in a
  {
  }

  lemma FirstIsLeast(a: seq<Key>, k: Key)
    requires KeysAscend(a) && k in a
    ensures k == a[0] || KeyLess(a[0], k)
  {
  }

  lemma RestIsTheRest(a: seq<Key>, k: Key)
    requires KeysAscend(a) && a != []
    ensures k in a[1..] <==> k in a && k != a[0]
  {
    KeysTrichotomy(a[0], a[0]);
    if k in a && k != a[0] {
      var i :| 0 <= i < |a| && a[i] == k;
      assert a[1..][i - 1] == k;
    }
  }
}
