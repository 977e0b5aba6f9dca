/** The keys of a JavaScript object used as a table. */
module ObjectKeys {
  // They are distinct, in insertion order, filtered in order and stably sorted by a number.

  type Key = string

  ghost predicate NoDuplicates<T>(s: seq<T>) {
    forall i, j :: 0 <= i < j < |s| ==> s[i] != s[j]
  }

  /** The chosen keys, in their order. */
  function Pick(keys: seq<Key>, chosen: set<Key>): (r: seq<Key>)
    ensures forall k :: k in r <==> k in keys && k in chosen
  {
    if keys == [] then []
    else Pick(keys[..|keys| - 1], chosen) + if keys[|keys| - 1] in chosen then [keys[|keys| - 1]] else []
  }

  function Set(keys: seq<Key>): set<Key> {
    set k | k in keys
  }

  lemma {:induction false} PickAll(keys: seq<Key>, chosen: set<Key>)
    requires forall k :: k in keys ==> k in chosen
    ensures Pick(keys, chosen) == keys
  {
    if keys != [] {
      var before, last := keys[..|keys| - 1], keys[|keys| - 1];
      assert keys == before + [last] && last in keys;
      PickAll(before, chosen);
    }
  }

  lemma {:induction false} PickNone(keys: seq<Key>, chosen: set<Key>)
    requires forall k :: k in keys ==> k !in chosen
    ensures Pick(keys, chosen) == []
  {
    if keys != [] {
      var before, last := keys[..|keys| - 1], keys[|keys| - 1];
      assert keys == before + [last] && last in keys;
      PickNone(before, chosen);
    }
  }

  lemma {:induction false} PickTwice(keys: seq<Key>, chosen: set<Key>, again: set<Key>)
    ensures Pick(Pick(keys, chosen), again) == Pick(keys, chosen * again)
  {
    if keys != [] {
      var before, last := keys[..|keys| - 1], keys[|keys| - 1];
      PickTwice(before, chosen, again);
      if last in chosen {
        assert (Pick(before, chosen) + [last])[..|Pick(before, chosen)|] == Pick(before, chosen);
      } else {
        assert Pick(keys, chosen) == Pick(before, chosen);
      }
    }
  }

  lemma {:induction false} PickKeepsDistinct(keys: seq<Key>, chosen: set<Key>)
    requires NoDuplicates(keys)
    ensures NoDuplicates(Pick(keys, chosen))
  {
    if keys != [] {
      var before, last := keys[..|keys| - 1], keys[|keys| - 1];
      PickKeepsDistinct(before, chosen);
      assert last !in before;
    }
  }

  lemma PickOneMore(keys: seq<Key>, i: nat, chosen: set<Key>)
    requires i < |keys| && NoDuplicates(keys)
    ensures Pick(keys[..i + 1], chosen) == if keys[i] in chosen then Pick(keys[..i], chosen) + [keys[i]] else Pick(keys[..i], chosen)
    ensures forall k :: k in keys[..i + 1] <==> k in keys[..i] || k == keys[i]
    ensures keys[i] !in keys[..i]
  {
    assert keys[..i + 1] == keys[..i] + [keys[i]] && keys[..i + 1][..i] == keys[..i];
  }

  lemma {:induction false} PickOneLess(keys: seq<Key>, domain: set<Key>, key: Key)
    requires NoDuplicates(keys) && key in keys && forall k :: k in keys ==> k in domain
    ensures |Pick(keys, domain - {key})| == |keys| - 1
  {
    var before, last := keys[..|keys| - 1], keys[|keys| - 1];
    if last == key {
      assert key !in before;
      PickAll(before, domain - {key});
    } else {
      assert key in before;
      PickOneLess(before, domain, key);
    }
  }

  /** Taking distinct keys out of a table shortens it by as many. */
  lemma {:induction false} PickLess(keys: seq<Key>, domain: set<Key>, gone: seq<Key>)
    requires NoDuplicates(keys) && NoDuplicates(gone)
    requires (forall k :: k in keys ==> k in domain) && forall k :: k in gone ==> k in keys
    ensures |Pick(keys, domain - Set(gone))| == |keys| - |gone|
  {
    if gone == [] {
      PickAll(keys, domain - Set(gone));
    } else {
      var before, last := gone[..|gone| - 1], gone[|gone| - 1];
      assert gone == before + [last] && last !in before;
      PickLess(keys, domain, before);
      var rest := domain - Set(before);
      PickKeepsDistinct(keys, rest);
      PickOneLess(Pick(keys, rest), rest, last);
      PickTwice(keys, rest, rest - {last});
      assert rest * (rest - {last}) == domain - Set(gone);
    }
  }

  lemma {:induction false} SetSize(keys: seq<Key>)
    requires NoDuplicates(keys)
    ensures |Set(keys)| == |keys|
  {
    if keys != [] {
      var before, last := keys[..|keys| - 1], keys[|keys| - 1];
      SetSize(before);
      assert last !in before;
      assert Set(keys) == Set(before) + {last};
    }
  }

  lemma {:induction false} SubsetSize<T>(a: set<T>, b: set<T>)
    requires a <= b
    ensures |a| <= |b|
    decreases b
  {
    if a != {} {
      var x :| x in a;
      SubsetSize(a - {x}, b - {x});
    }
  }

  lemma JoinDistinct(a: seq<Key>, b: seq<Key>)
    requires NoDuplicates(a) && NoDuplicates(b) && Set(a) !! Set(b)
    ensures NoDuplicates(a + b)
  {
    forall i, j | 0 <= i < |a| && 0 <= j < |b|
      ensures a[i] != b[j]
    {
      assert a[i] in Set(a) && b[j] in Set(b);
    }
  }

  // ---------------------------------------------------------------- tables

  datatype Table<V> = Table(keys: seq<Key>, slots: map<Key, V>) {
    ghost predicate Valid() {
      NoDuplicates(keys) && forall k :: k in keys <==> k in slots
    }
  }

  /** `table[key] = value`: a new key goes last. */
  function Put<V>(table: Table<V>, key: Key, value: V): Table<V> {
    Table(if key in table.slots then table.keys else table.keys + [key], table.slots[key := value])
  }

  /** `delete table[key]` for each of these keys. */
  function Remove<V>(table: Table<V>, gone: set<Key>): Table<V> {
    Table(Pick(table.keys, table.slots.Keys - gone), table.slots - gone)
  }

  lemma {:induction false} PutIsValid<V>(table: Table<V>, key: Key, value: V)
    requires table.Valid()
    ensures Put(table, key, value).Valid()
  {
  }

  lemma {:induction false} KeyCount<V>(table: Table<V>)
    requires table.Valid()
    ensures |table.slots| == |table.keys|
  {
    SetSize(table.keys);
    assert Set(table.keys) == table.slots.Keys;
    assert |table.slots| == |table.slots.Keys|;
  }

  lemma RemoveNothing<V>(table: Table<V>)
    requires table.Valid()
    ensures Remove(table, Set([])) == table
  {
    PickAll(table.keys, table.slots.Keys - Set([]));
    assert table.slots - Set([]) == table.slots;
  }

  lemma RemoveSpares<V>(table: Table<V>, gone: set<Key>, key: Key)
    requires key !in gone && key in table.slots
    ensures key in Remove(table, gone).slots && Remove(table, gone).slots[key] == table.slots[key]
  {
  }

  lemma {:induction false} RemoveOneMore<V>(table: Table<V>, gone: seq<Key>, key: Key)
    ensures Remove(table, Set(gone + [key])) == Remove(Remove(table, Set(gone)), {key})
  {
    var rest := table.slots.Keys - Set(gone);
    PickTwice(table.keys, rest, rest - {key});
    assert rest * (rest - {key}) == table.slots.Keys - Set(gone + [key]);
    assert Remove(table, Set(gone)).slots.Keys == rest;
    assert table.slots - Set(gone + [key]) == table.slots - Set(gone) - {key};
  }

  lemma {:induction false} RemoveIsValid<V>(table: Table<V>, gone: set<Key>)
    requires table.Valid()
    ensures Remove(table, gone).Valid()
  {
    PickKeepsDistinct(table.keys, table.slots.Keys - gone);
  }

  // ---------------------------------------------------------------- Array.prototype.sort by a number: stable

  function Rank(ranks: map<Key, int>, key: Key): int {
    if key in ranks then ranks[key] else 0
  }

  function InsertByRank(key: Key, sorted: seq<Key>, ranks: map<Key, int>): (r: seq<Key>)
    ensures multiset(r) == multiset(sorted) + multiset{key} && |r| == |sorted| + 1
  {
    if sorted == [] then [key]
    else if Rank(ranks, sorted[|sorted| - 1]) > Rank(ranks, key) then
      assert sorted == sorted[..|sorted| - 1] + [sorted[|sorted| - 1]];
      InsertByRank(key, sorted[..|sorted| - 1], ranks) + [sorted[|sorted| - 1]]
    else sorted + [key]
  }

  function SortByRank(keys: seq<Key>, ranks: map<Key, int>): (r: seq<Key>)
    ensures multiset(r) == multiset(keys) && |r| == |keys|
  {
    if keys == [] then []
    else
      assert keys == keys[..|keys| - 1] + [keys[|keys| - 1]];
      InsertByRank(keys[|keys| - 1], SortByRank(keys[..|keys| - 1], ranks), ranks)
  }

  ghost predicate Ascending(keys: seq<Key>, ranks: map<Key, int>) {
    forall i, j :: 0 <= i < j < |keys| ==> Rank(ranks, keys[i]) <= Rank(ranks, keys[j])
  }

  lemma {:induction false} InsertKeepsOrder(key: Key, sorted: seq<Key>, ranks: map<Key, int>)
    requires Ascending(sorted, ranks)
    ensures Ascending(InsertByRank(key, sorted, ranks), ranks)
  {
    if sorted != [] && Rank(ranks, sorted[|sorted| - 1]) > Rank(ranks, key) {
      var before, last := sorted[..|sorted| - 1], sorted[|sorted| - 1];
      InsertKeepsOrder(key, before, ranks);
      forall i | 0 <= i < |InsertByRank(key, before, ranks)|
        ensures Rank(ranks, InsertByRank(key, before, ranks)[i]) <= Rank(ranks, last)
      {
        assert InsertByRank(key, before, ranks)[i] in multiset(before) + multiset{key};
      }
    }
  }

  lemma {:induction false} SortIsAscending(keys: seq<Key>, ranks: map<Key, int>)
    ensures Ascending(SortByRank(keys, ranks), ranks)
  {
    if keys != [] {
      SortIsAscending(keys[..|keys| - 1], ranks);
      InsertKeepsOrder(keys[|keys| - 1], SortByRank(keys[..|keys| - 1], ranks), ranks);
    }
  }

  /** Sorting distinct keys lists the same keys, each once. */
  lemma {:induction false} SortIsDistinct(keys: seq<Key>, ranks: map<Key, int>)
    requires NoDuplicates(keys)
    ensures NoDuplicates(SortByRank(keys, ranks)) && forall k :: k in SortByRank(keys, ranks) <==> k in keys
  {
    var sorted := SortByRank(keys, ranks);
    SameDistinct(keys, sorted);
    forall k
      ensures k in sorted <==> k in keys
    {
      assert k in multiset(sorted) <==> k in multiset(keys);
    }
  }

  lemma {:induction false} SameDistinct(a: seq<Key>, b: seq<Key>)
    requires multiset(a) == multiset(b) && NoDuplicates(a)
    ensures NoDuplicates(b)
  {
    forall i, j | 0 <= i < j < |b|
      ensures b[i] != b[j]
    {
      if b[i] == b[j] {
        assert b == b[..i] + [b[i]] + b[i + 1..j] + [b[j]] + b[j + 1..];
        assert multiset(b)[b[i]] >= 2;
        OnceEach(a, b[i]);
      }
    }
  }

  lemma {:induction false} OnceEach(a: seq<Key>, x: Key)
    requires NoDuplicates(a)
    ensures multiset(a)[x] <= 1
  {
    if a != [] {
      var before, last := a[..|a| - 1], a[|a| - 1];
      OnceEach(before, x);
      assert a == before + [last];
      assert last !in before;
      if x == last { assert x !in multiset(before); }
    }
  }

  /** The first keys of a sorted list rank no higher than the others. */
  lemma {:induction false} FirstsRankLow(keys: seq<Key>, ranks: map<Key, int>, n: nat, low: Key, high: Key)
    requires NoDuplicates(keys) && n <= |SortByRank(keys, ranks)|
    requires low in SortByRank(keys, ranks)[..n] && high in keys && high !in SortByRank(keys, ranks)[..n]
    ensures Rank(ranks, low) <= Rank(ranks, high)
  {
    var sorted := SortByRank(keys, ranks);
    SortIsAscending(keys, ranks);
    SortIsDistinct(keys, ranks);
    var i :| 0 <= i < n && sorted[i] == low;
    var j :| 0 <= j < |sorted| && sorted[j] == high;
    assert j >= n;
  }
}
