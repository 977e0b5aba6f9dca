/** String comparison by code unit, and the sorted listing of a set of names. */
module TextOrder {
  /** JavaScript's `<` on strings; localeCompare agrees with it on the ids the system generates. */
  predicate Less(a: string, b: string) {
    if b == "" then false
    else if a == "" then true
    else if a[0] != b[0] then a[0] < b[0]
    else Less(a[1..], b[1..])
  }

  lemma {:induction false} LessIrreflexive(a: string)
    ensures !Less(a, a)
    decreases |a|
  {
    if a != "" {
      LessIrreflexive(a[1..]);
    }
  }

  lemma {:induction false} LessTotal(a: string, b: string)
    ensures Less(a, b) || a == b || Less(b, a)
    decreases |a|
  {
    if a != "" && b != "" && a[0] == b[0] {
      LessTotal(a[1..], b[1..]);
      assert a == [a[0]] + a[1..] && b == [b[0]] + b[1..];
    }
  }

  lemma {:induction false} LessTransitive(a: string, b: string, c: string)
    requires Less(a, b) && Less(b, c)
    ensures Less(a, c)
    decreases |a|
  {
    if a != "" && a[0] == b[0] && b[0] == c[0] {
      LessTransitive(a[1..], b[1..], c[1..]);
    }
  }

  lemma {:induction false} LessAsymmetric(a: string, b: string)
    requires Less(a, b)
    ensures !Less(b, a) && a != b
  {
    LessIrreflexive(a);
    if Less(b, a) {
      LessTransitive(a, b, a);
    }
  }

  lemma {:induction false} LessBehindPrefix(p: string, a: string, b: string)
    ensures Less(p + a, p + b) <==> Less(a, b)
    decreases |p|
  {
    if p == "" {
      assert p + a == a && p + b == b;
    } else {
      assert (p + a)[0] == p[0] && (p + b)[0] == p[0];
      assert (p + a)[1..] == p[1..] + a && (p + b)[1..] == p[1..] + b;
      LessBehindPrefix(p[1..], a, b);
    }
  }

  ghost predicate Sorted(names: seq<string>) {
    forall i, j :: 0 <= i < j < |names| ==> Less(names[i], names[j])
  }

  /** `names` lists the set `keys`, each name once, in string order. */
  ghost predicate Lists(names: seq<string>, keys: set<string>) {
    Sorted(names) && forall k :: k in keys <==> k in names
  }

  lemma ListedSome(names: seq<string>, keys: set<string>)
    requires Lists(names, keys)
    ensures names != [] <==> keys != {}
  {
    assert names != [] ==> names[0] in names;
  }

  lemma {:induction false} ListingIsUnique(a: seq<string>, b: seq<string>, keys: set<string>)
    requires Lists(a, keys) && Lists(b, keys)
    ensures a == b
    decreases |a|
  {
    ListedSome(a, keys);
    ListedSome(b, keys);
    if a != [] {
      FirstsAgree(a, b, keys);
      ListsTail(a, keys);
      ListsTail(b, keys);
      ListingIsUnique(a[1..], b[1..], keys - {a[0]});
    }
  }

  lemma {:induction false} FirstsAgree(a: seq<string>, b: seq<string>, keys: set<string>)
    requires Lists(a, keys) && Lists(b, keys) && a != [] && b != []
    ensures a[0] == b[0]
  {
    assert a[0] in b && b[0] in a;
    var i :| 0 <= i < |b| && b[i] == a[0];
    var j :| 0 <= j < |a| && a[j] == b[0];
    if i > 0 && j > 0 {
      LessAsymmetric(a[0], b[0]);
    }
  }

  lemma {:induction false} ListsTail(names: seq<string>, keys: set<string>)
    requires Lists(names, keys) && names != []
    ensures Lists(names[1..], keys - {names[0]})
  {
    LessIrreflexive(names[0]);
    forall k
      ensures k in keys - {names[0]} <==> k in names[1..]
    {
      if k in keys - {names[0]} {
        var i :| 0 <= i < |names| && names[i] == k;
        assert names[1..][i - 1] == k;
      }
      if k in names[1..] {
        var i :| 0 <= i < |names[1..]| && names[1..][i] == k;
        assert names[i + 1] == k && Less(names[0], k);
      }
    }
  }

  /** Position of `name` in a sorted list that does not hold it yet. */
  method InsertSorted(names: seq<string>, name: string, ghost keys: set<string>) returns (out: seq<string>)
    requires Lists(names, keys) && name !in keys
    ensures Lists(out, keys + {name})
  {
    var i := 0;
    while i < |names| && Less(names[i], name)
      invariant 0 <= i <= |names|
      invariant forall j :: 0 <= j < i ==> Less(names[j], name)
    {
      i := i + 1;
    }
    out := names[..i] + [name] + names[i..];
    InsertKeepsOrder(names, name, i);
    assert names == names[..i] + names[i..];
    assert forall k :: k in out <==> k in names || k == name;
  }

  lemma {:induction false} InsertKeepsOrder(names: seq<string>, name: string, at: nat)
    requires Sorted(names) && name !in names && at <= |names|
    requires forall j :: 0 <= j < at ==> Less(names[j], name)
    requires at < |names| ==> !Less(names[at], name)
    ensures Sorted(names[..at] + [name] + names[at..])
  {
    var out := names[..at] + [name] + names[at..];
    forall j | at <= j < |names|
      ensures Less(name, names[j])
    {
      LessTotal(name, names[at]);
      if j > at {
        LessTransitive(name, names[at], names[j]);
      }
    }
    forall i, j | 0 <= i < j < |out|
      ensures Less(out[i], out[j])
    {
      var a := if i <= at then i else i - 1;
      var b := if j <= at then j else j - 1;
      assert i != at ==> out[i] == names[if i < at then i else i - 1];
      assert j != at ==> out[j] == names[if j < at then j else j - 1];
    }
  }

  /** readdir in any order, then sort: the sorted listing of a set of names. */
  method SortNames(keys: set<string>) returns (names: seq<string>)
    ensures Lists(names, keys)
  {
    names := [];
    var left := keys;
    while left != {}
      invariant left <= keys
      invariant Lists(names, keys - left)
      decreases left
    {
      var name :| name in left;
      names := InsertSorted(names, name, keys - left);
      left := left - {name};
      assert keys - left == keys - (left + {name}) + {name};
    }
    assert keys - left == keys;
  }

  lemma SortedListingExists(keys: set<string>) returns (names: seq<string>)
    ensures Lists(names, keys)
    decreases keys
  {
    if keys == {} {
      names := [];
    } else {
      var name :| name in keys;
      var rest := SortedListingExists(keys - {name});
      var at := PlaceFor(rest, name, 0);
      InsertKeepsOrder(rest, name, at);
      names := rest[..at] + [name] + rest[at..];
      assert rest == rest[..at] + rest[at..];
      assert forall k :: k in names <==> k in rest || k == name;
    }
  }

  lemma {:induction false} PlaceFor(names: seq<string>, name: string, from: nat) returns (at: nat)
    requires from <= |names| && forall j :: 0 <= j < from ==> Less(names[j], name)
    ensures at <= |names| && (forall j :: 0 <= j < at ==> Less(names[j], name)) && (at < |names| ==> !Less(names[at], name))
    decreases |names| - from
  {
    at := from;
    if from < |names| && Less(names[from], name) {
      at := PlaceFor(names, name, from + 1);
    }
  }

  /** The one sorted listing of a set of names. */
  ghost function Listing(keys: set<string>): (names: seq<string>)
    ensures Lists(names, keys)
  {
    ListingExists(keys);
    var names :| Lists(names, keys);
    names
  }

  lemma ListingExists(keys: set<string>)
    ensures exists names :: Lists(names, keys)
  {
    var names := SortedListingExists(keys);
  }
}
