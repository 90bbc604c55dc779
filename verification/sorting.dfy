/** Ordering of query results (`ORDER BY a, b` in SQL, `Array.prototype.sort` with a
    comparator in JavaScript), modelled as a stable insertion sort on a two-part key
    compared lexicographically. A descending column is sorted on its negation. */
module Sorting {

  datatype Key = Key(major: int, minor: int)

  predicate KeyLe(a: Key, b: Key) {
    a.major < b.major || (a.major == b.major && a.minor <= b.minor)
  }

  ghost predicate SortedBy<T>(s: seq<T>, key: T -> Key) {
    forall i, j :: 0 <= i < j < |s| ==> KeyLe(key(s[i]), key(s[j]))
  }

  /** Inserts `x` into a sorted sequence in front of the first element with a key
      not smaller than its own. */
  function Insert<T>(x: T, s: seq<T>, key: T -> Key): (r: seq<T>)
    requires SortedBy(s, key)
    ensures |r| == |s| + 1
    ensures r[0] == x || (s != [] && r[0] == s[0])
    ensures SortedBy(r, key)
    ensures multiset(r) == multiset(s) + multiset{x}
  {
    if s == [] then [x]
    else if KeyLe(key(x), key(s[0])) then [x] + s
    else
      var t := Insert(x, s[1..], key);
      assert s == [s[0]] + s[1..];
      [s[0]] + t
  }

  /** The elements of `s` in ascending key order. */
  function SortBy<T>(s: seq<T>, key: T -> Key): (r: seq<T>)
    ensures SortedBy(r, key)
    ensures multiset(r) == multiset(s)
    ensures |r| == |s|
  {
    if s == [] then []
    else
      assert s == [s[0]] + s[1..];
      Insert(s[0], SortBy(s[1..], key), key)
  }

  /** Sorting neither adds nor drops an element. */
  lemma SortByMembership<T>(s: seq<T>, key: T -> Key, x: T)
    ensures x in SortBy(s, key) <==> x in s
  {
    var r := SortBy(s, key);
    assert multiset(r) == multiset(s);
    assert x in r <==> x in multiset(r);
  }

  /** A prefix of a sorted sequence is sorted and holds no element of a smaller key
      than an element it leaves out. */
  lemma PrefixOfSorted<T>(s: seq<T>, n: nat, key: T -> Key)
    requires SortedBy(s, key) && n <= |s|
    ensures SortedBy(s[..n], key)
    ensures forall i, j :: 0 <= i < n <= j < |s| ==> KeyLe(key(s[i]), key(s[j]))
  {
  }
}
