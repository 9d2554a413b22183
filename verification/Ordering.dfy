/** Keys ordered first by an integer (a time or a sequence number) and then by id, and the
    one sorted listing every finite set of keys has. */
module Ordering {
  datatype Key = Key(at: int, id: string)

  /** Byte-wise lexicographic order, as Go's `<` on strings. */
  predicate StrLess(a: string, b: string) {
    if b == [] then false
    else if a == [] then true
    else a[0] < b[0] || (a[0] == b[0] && StrLess(a[1..], b[1..]))
  }

  predicate Less(a: Key, b: Key) {
    a.at < b.at || (a.at == b.at && StrLess(a.id, b.id))
  }

  lemma {:induction false} StrTrichotomy(a: string, b: string)
    ensures StrLess(a, b) || StrLess(b, a) || a == b
    ensures !(StrLess(a, b) && StrLess(b, a))
    ensures !StrLess(a, a)
    decreases |a| + |b|
  {
    if a != [] && b != [] {
      StrTrichotomy(a[1..], b[1..]);
      if a[1..] == b[1..] && a[0] == b[0] {
        assert a == [a[0]] + a[1..] == b;
      }
    }
    if a != [] {
      StrIrreflexive(a);
    }
  }

  lemma {:induction false} StrIrreflexive(a: string)
    ensures !StrLess(a, a)
  {
    if a != [] {
      StrIrreflexive(a[1..]);
    }
  }

  lemma {:induction false} StrTransitive(a: string, b: string, c: string)
    requires StrLess(a, b) && StrLess(b, c)
    ensures StrLess(a, c)
  {
    if a != [] && a[0] == b[0] == c[0] {
      StrTransitive(a[1..], b[1..], c[1..]);
    }
  }

  lemma Trichotomy(a: Key, b: Key)
    ensures Less(a, b) || Less(b, a) || a == b
    ensures !(Less(a, b) && Less(b, a))
    ensures !Less(a, a)
  {
    StrTrichotomy(a.id, b.id);
    StrIrreflexive(a.id);
  }

  lemma Transitive(a: Key, b: Key, c: Key)
    requires Less(a, b) && Less(b, c)
    ensures Less(a, c)
  {
    if a.at == b.at == c.at {
      StrTransitive(a.id, b.id, c.id);
    }
  }

  predicate Sorted(s: seq<Key>) {
    forall i, j :: 0 <= i < j < |s| ==> Less(s[i], s[j])
  }

  predicate Distinct<T(==)>(s: seq<T>) { forall i, j :: 0 <= i < j < |s| ==> s[i] != s[j] }

  predicate DistinctIds(keys: seq<Key>) { forall i, j :: 0 <= i < j < |keys| ==> keys[i].id != keys[j].id }

  function Elements(s: seq<Key>): set<Key> { set k | k in s }

  /** `s` lists exactly the keys of `keys`, each once, in order. */
  ghost predicate Lists(s: seq<Key>, keys: set<Key>) {
    Sorted(s) && Elements(s) == keys
  }

  lemma {:induction false} ListingLength(s: seq<Key>, keys: set<Key>)
    requires Lists(s, keys)
    ensures |s| == |keys|
    decreases |s|
  {
    if s != [] {
      var last := s[|s| - 1];
      Trichotomy(last, last);
      assert s == s[..|s| - 1] + [last];
      assert last !in s[..|s| - 1];
      assert Elements(s[..|s| - 1]) == keys - {last};
      ListingLength(s[..|s| - 1], keys - {last});
    }
  }

  /** There is only one sorted listing of a set. */
  lemma {:induction false} ListingUnique(s: seq<Key>, t: seq<Key>, keys: set<Key>)
    requires Lists(s, keys) && Lists(t, keys)
    ensures s == t
    decreases |s|
  {
    ListingLength(s, keys);
    ListingLength(t, keys);
    if s != [] {
      FirstIsLeast(s);
      FirstIsLeast(t);
      assert s[0] in keys && t[0] in keys;
      assert s[0] in t && t[0] in s;
      Trichotomy(s[0], t[0]);
      assert s[0] == t[0];
      TailLists(s, keys);
      TailLists(t, keys);
      ListingUnique(s[1..], t[1..], keys - {s[0]});
      assert s == [s[0]] + s[1..] && t == [t[0]] + t[1..];
    }
  }

  lemma FirstIsLeast(s: seq<Key>)
    requires Sorted(s) && s != []
    ensures forall k :: k in s && k != s[0] ==> Less(s[0], k)
  {
  }

  lemma TailLists(s: seq<Key>, keys: set<Key>)
    requires Lists(s, keys) && s != []
    ensures Lists(s[1..], keys - {s[0]})
  {
    assert s == [s[0]] + s[1..];
    Trichotomy(s[0], s[0]);
    assert s[0] !in s[1..];
  }

  function Insert(k: Key, s: seq<Key>): (r: seq<Key>)
    requires Sorted(s) && k !in s
    ensures Lists(r, Elements(s) + {k})
    decreases |s|
  {
    if s == [] then [k]
    else
      Trichotomy(k, s[0]);
      if Less(k, s[0]) then
        assert forall i :: 0 < i < |s| ==> Less(k, s[i]) by {
          forall i | 0 < i < |s| ensures Less(k, s[i]) { Transitive(k, s[0], s[i]); }
        }
        [k] + s
      else
        var r := [s[0]] + Insert(k, s[1..]);
        assert s == [s[0]] + s[1..];
        assert forall x :: x in Insert(k, s[1..]) ==> Less(s[0], x) by {
          forall x | x in Insert(k, s[1..]) ensures Less(s[0], x) {
            assert x in Elements(s[1..]) + {k};
          }
        }
        r
  }

  /** Insertion sort of distinct keys. */
  function Sort(s: seq<Key>): (r: seq<Key>)
    requires Distinct(s)
    ensures Lists(r, Elements(s))
    decreases |s|
  {
    if s == [] then []
    else
      var r := Sort(s[1..]);
      assert s == [s[0]] + s[1..];
      assert s[0] !in Elements(s[1..]);
      Insert(s[0], r)
  }

  /** The sorted listing of a set. */
  ghost function Listing(keys: set<Key>): (r: seq<Key>)
    ensures Lists(r, keys) && |r| == |keys|
    decreases |keys|
  {
    if keys == {} then []
    else
      var k :| k in keys;
      var r := Insert(k, Listing(keys - {k}));
      assert keys == (keys - {k}) + {k};
      ListingLength(r, keys);
      r
  }

  /** A key past all others comes last. */
  lemma ListingAppend(keys: set<Key>, k: Key)
    requires forall x :: x in keys ==> Less(x, k)
    ensures Listing(keys + {k}) == Listing(keys) + [k]
  {
    var s := Listing(keys);
    var longer := s + [k];
    forall i | 0 <= i < |s| ensures Less(s[i], k) { assert s[i] in Elements(s); }
    assert Sorted(longer);
    assert Elements(longer) == keys + {k};
    ListingUnique(Listing(keys + {k}), longer, keys + {k});
  }

  lemma SortIsListing(s: seq<Key>)
    requires Distinct(s)
    ensures Sort(s) == Listing(Elements(s))
  {
    ListingUnique(Sort(s), Listing(Elements(s)), Elements(s));
  }

  /** The first `n` of a listing. */
  function Take(s: seq<Key>, n: int): (r: seq<Key>)
    requires n >= 0
    ensures r <= s && |r| == if |s| <= n then |s| else n
  {
    if |s| <= n then s else s[..n]
  }

  lemma SortedPrefix(s: seq<Key>, n: nat)
    requires Sorted(s) && n <= |s|
    ensures Sorted(s[..n]) && Sorted(s[n..])
    ensures forall a, b :: a in s[..n] && b in s[n..] ==> Less(a, b)
  {
  }
}
