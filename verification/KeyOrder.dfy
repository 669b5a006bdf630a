/** The order of assembly keys: tuples compared field by field, strings by their characters. */
module KeyOrder {
  /** `AssemblyKey`: source identity, sequential message id, channel, declared total. */
  datatype Key = Key(source: string, sequentialId: string, channel: string, total: int)

  predicate StringBefore(a: string, b: string) {
    b != "" && (a == "" || a[0] < b[0] || (a[0] == b[0] && StringBefore(a[1..], b[1..])))
  }

  predicate Before(a: Key, b: Key) {
    if a.source != b.source then StringBefore(a.source, b.source)
    else if a.sequentialId != b.sequentialId then StringBefore(a.sequentialId, b.sequentialId)
    else if a.channel != b.channel then StringBefore(a.channel, b.channel)
    else a.total < b.total
  }

  lemma {:induction false} StringsTotal(a: string, b: string)
    ensures a != b ==> (StringBefore(a, b) <==> !StringBefore(b, a))
    ensures !StringBefore(a, a)
  {
    if a != "" {
      StringsTotal(a[1..], a[1..]);
      if b != "" {
        StringsTotal(a[1..], b[1..]);
        assert a == [a[0]] + a[1..] && b == [b[0]] + b[1..];
      }
    }
  }

  lemma {:induction false} StringsTransitive(a: string, b: string, c: string)
    requires StringBefore(a, b) && StringBefore(b, c)
    ensures StringBefore(a, c)
  {
    if a != "" && a[0] == b[0] == c[0] {
      StringsTransitive(a[1..], b[1..], c[1..]);
    }
  }

  lemma Comparable(a: Key, b: Key)
    ensures a != b ==> (Before(a, b) <==> !Before(b, a))
    ensures !Before(a, a)
  {
    StringsTotal(a.source, b.source);
    StringsTotal(a.sequentialId, b.sequentialId);
    StringsTotal(a.channel, b.channel);
  }

  lemma Transitive(a: Key, b: Key, c: Key)
    requires Before(a, b) && Before(b, c)
    ensures Before(a, c)
  {
    StringsTotal(a.source, b.source);
    StringsTotal(a.sequentialId, b.sequentialId);
    StringsTotal(a.channel, b.channel);
    if a.source != b.source && b.source != c.source { StringsTransitive(a.source, b.source, c.source); }
    if a.sequentialId != b.sequentialId && b.sequentialId != c.sequentialId
       && StringBefore(a.sequentialId, b.sequentialId) && StringBefore(b.sequentialId, c.sequentialId) {
      StringsTransitive(a.sequentialId, b.sequentialId, c.sequentialId);
    }
    if a.channel != b.channel && b.channel != c.channel
       && StringBefore(a.channel, b.channel) && StringBefore(b.channel, c.channel) {
      StringsTransitive(a.channel, b.channel, c.channel);
    }
  }

  /** Strictly increasing, so without repeats. */
  predicate Sorted(s: seq<Key>) {
    forall i, j :: 0 <= i < j < |s| ==> InOrder(s, i, j)
  }

  predicate InOrder(s: seq<Key>, i: int, j: int)
    requires 0 <= i < |s| && 0 <= j < |s|
  {
    Before(s[i], s[j])
  }

  /** Inserts a new key into a sorted sequence. */
  function Insert(s: seq<Key>, k: Key): (r: seq<Key>)
    ensures |r| == |s| + 1
    ensures forall x :: x in r <==> x in s || x == k
  {
    if s == [] then [k]
    else if Before(k, s[0]) then [k] + s
    else
      assert s == [s[0]] + s[1..];
      [s[0]] + Insert(s[1..], k)
  }

  lemma {:induction false} InsertKeepsSorted(s: seq<Key>, k: Key)
    requires Sorted(s) && k !in s
    ensures Sorted(Insert(s, k))
  {
    var r := Insert(s, k);
    if s == [] { return; }
    forall i, j | 0 <= i < j < |s[1..]| ensures InOrder(s[1..], i, j) { assert InOrder(s, i + 1, j + 1); }
    if Before(k, s[0]) {
      forall i, j | 0 <= i < j < |r| ensures InOrder(r, i, j) {
        if i > 0 { assert InOrder(s, i - 1, j - 1); }
        else if j > 1 { assert InOrder(s, 0, j - 1); Transitive(k, s[0], s[j - 1]); }
      }
    } else {
      InsertKeepsSorted(s[1..], k);
      Comparable(k, s[0]);
      forall i, j | 0 <= i < j < |r| ensures InOrder(r, i, j) {
        if i > 0 { assert InOrder(Insert(s[1..], k), i - 1, j - 1); }
        else {
          assert r[j] in Insert(s[1..], k);
          if r[j] != k {
            var m :| 0 <= m < |s[1..]| && s[1..][m] == r[j];
            assert InOrder(s, 0, m + 1);
          }
        }
      }
    }
  }

  /** The keys of a finite set in increasing order. */
  method SortedKeys(keys: set<Key>) returns (s: seq<Key>)
    ensures Sorted(s) && |s| == |keys|
    ensures forall k :: k in s <==> k in keys
    ensures Lists(s, keys)
  {
    s := [];
    var rest := keys;
    while rest != {}
      invariant rest <= keys && Sorted(s) && |s| + |rest| == |keys|
      invariant forall k :: k in s <==> k in keys - rest
      decreases |rest|
    {
      var k :| k in rest;
      InsertKeepsSorted(s, k);
      s := Insert(s, k);
      rest := rest - {k};
    }
  }

  lemma HeadIsLeast(s: seq<Key>, k: Key)
    requires Sorted(s) && k in s
    ensures k == s[0] || Before(s[0], k)
  {
    var i :| 0 <= i < |s| && s[i] == k;
    if i > 0 { assert InOrder(s, 0, i); }
  }

  /** A set of keys has one sorted sequence. */
  lemma {:induction false} SortedIsUnique(s: seq<Key>, t: seq<Key>)
    requires Sorted(s) && Sorted(t)
    requires forall k :: k in s <==> k in t
    ensures s == t
  {
    assert |s| > 0 ==> s[0] in t;
    assert |t| > 0 ==> t[0] in s;
    if s == [] { return; }
    HeadIsLeast(t, s[0]);
    HeadIsLeast(s, t[0]);
    Comparable(s[0], t[0]);
    SortedTail(s);
    SortedTail(t);
    forall k ensures k in s[1..] <==> k in t[1..] {
      TailMembers(s, k);
      TailMembers(t, k);
    }
    SortedIsUnique(s[1..], t[1..]);
  }

  lemma SortedTail(s: seq<Key>)
    requires Sorted(s) && s != []
    ensures Sorted(s[1..])
  {
    forall i, j | 0 <= i < j < |s[1..]| ensures InOrder(s[1..], i, j) { assert InOrder(s, i + 1, j + 1); }
  }

  lemma TailMembers(s: seq<Key>, k: Key)
    requires Sorted(s) && s != []
    ensures k in s[1..] <==> k in s && k != s[0]
  {
    if k in s[1..] {
      var i :| 0 <= i < |s[1..]| && s[1..][i] == k;
      assert InOrder(s, 0, i + 1);
      Comparable(k, s[0]);
    }
  }

  /** The sequence has each key of the set once. */
  ghost predicate Lists(s: seq<Key>, keys: set<Key>) {
    (forall k :: k in s <==> k in keys) && |s| == |keys|
  }

  lemma ListsFew(k: Key)
    ensures Lists([], {}) && Lists([k], {k})
  {
  }

  lemma ListsBoth(a: seq<Key>, b: seq<Key>, x: set<Key>, y: set<Key>)
    requires Lists(a, x) && Lists(b, y) && x !! y
    ensures Lists(a + b, x + y)
  {
    assert |x + y| == |x| + |y|;
  }

  lemma ListsItself(s: seq<Key>, keys: set<Key>)
    requires Lists(s, keys)
    ensures (set k | k in s) == keys
  {
  }
}
