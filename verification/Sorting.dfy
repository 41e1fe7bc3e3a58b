/** sort.Strings: the lexicographic order of strings, and the one sorted list
    of a set of strings. */
module Sorting {

  type Text = seq<int>

  predicate Less(a: Text, b: Text)
    decreases |a|
  {
    if |b| == 0 then false
    else if |a| == 0 then true
    else a[0] < b[0] || (a[0] == b[0] && Less(a[1..], b[1..]))
  }

  lemma {:induction false} LessTrichotomy(a: Text, b: Text)
    ensures Less(a, b) || a == b || Less(b, a)
    ensures !(Less(a, b) && Less(b, a)) && !Less(a, a)
    decreases |a|
  {
    if |a| > 0 {
      LessTrichotomy(a[1..], a[1..]);
      if |b| > 0 {
        LessTrichotomy(a[1..], b[1..]);
        assert a == [a[0]] + a[1..] && b == [b[0]] + b[1..];
      }
    }
  }

  lemma {:induction false} LessTransitive(a: Text, b: Text, c: Text)
    requires Less(a, b) && Less(b, c)
    ensures Less(a, c)
    decreases |a|
  {
    if |a| > 0 && a[0] == b[0] == c[0] {
      LessTransitive(a[1..], b[1..], c[1..]);
    }
  }

  ghost predicate Sorted(keys: seq<Text>) {
    forall i, j | 0 <= i < j < |keys| :: Less(keys[i], keys[j])
  }

  /** `keys` lists the elements of `set`, in increasing order. */
  ghost predicate Lists(keys: seq<Text>, elements: set<Text>) {
    Sorted(keys) && forall k :: k in keys <==> k in elements
  }

  /** Inserts a new key at its place in a sorted list. */
  function Insert(keys: seq<Text>, k: Text): seq<Text> {
    if |keys| == 0 || Less(k, keys[0]) then [k] + keys
    else [keys[0]] + Insert(keys[1..], k)
  }

  lemma {:induction false} InsertLists(keys: seq<Text>, elements: set<Text>, k: Text)
    requires Lists(keys, elements) && k !in elements
    ensures Lists(Insert(keys, k), elements + {k})
  {
    if |keys| == 0 {
    } else if Less(k, keys[0]) {
      forall j | 0 <= j < |keys| ensures Less(k, keys[j]) {
        if j > 0 { LessTransitive(k, keys[0], keys[j]); }
      }
    } else {
      var rest := keys[1..];
      var first := keys[0];
      assert keys == [first] + rest;
      assert first !in rest by {
        if first in rest {
          var j :| 0 <= j < |rest| && rest[j] == first;
          LessTrichotomy(keys[0], keys[j + 1]);
        }
      }
      InsertLists(rest, elements - {first}, k);
      var tail := Insert(rest, k);
      LessTrichotomy(k, first);
      forall j | 0 <= j < |tail| ensures Less(first, tail[j]) {
        assert tail[j] in tail;
      }
    }
  }

  lemma EmptyLists(keys: seq<Text>, elements: set<Text>)
    requires Lists(keys, elements)
    ensures elements == {} ==> keys == []
  {
    if keys != [] {
      assert keys[0] in elements;
    }
  }

  lemma {:induction false} ListsUnique(a: seq<Text>, b: seq<Text>, elements: set<Text>)
    requires Lists(a, elements) && Lists(b, elements)
    ensures a == b
  {
    if |a| == 0 {
      assert elements == {};
      EmptyLists(b, elements);
    } else {
      assert a[0] in b;
      assert b[0] in a;
      var i :| 0 <= i < |b| && b[i] == a[0];
      var j :| 0 <= j < |a| && a[j] == b[0];
      LessTrichotomy(a[0], b[0]);
      assert a[0] == b[0];
      RestLists(a, elements);
      RestLists(b, elements);
      ListsUnique(a[1..], b[1..], elements - {a[0]});
      assert a == [a[0]] + a[1..] && b == [b[0]] + b[1..];
    }
  }

  lemma RestLists(a: seq<Text>, elements: set<Text>)
    requires Lists(a, elements) && |a| > 0
    ensures Lists(a[1..], elements - {a[0]})
  {
    assert a == [a[0]] + a[1..];
    if a[0] in a[1..] {
      var j :| 0 <= j < |a| - 1 && a[1..][j] == a[0];
      LessTrichotomy(a[0], a[j + 1]);
    }
  }

  /** The elements of a set in increasing order. */
  ghost function SortedKeys(elements: set<Text>): (keys: seq<Text>)
    ensures Lists(keys, elements)
    decreases |elements|
  {
    if elements == {} then []
    else
      var k :| k in elements;
      InsertLists(SortedKeys(elements - {k}), elements - {k}, k);
      assert elements - {k} + {k} == elements;
      Insert(SortedKeys(elements - {k}), k)
  }

  /** Collects the keys of a map, which range over in any order, and sorts them. */
  method SortStrings(elements: set<Text>) returns (keys: seq<Text>)
    ensures keys == SortedKeys(elements)
  {
    keys := [];
    var left := elements;
    while left != {}
      invariant left <= elements
      invariant Lists(keys, elements - left)
      decreases |left|
    {
      var k :| k in left;
      InsertLists(keys, elements - left, k);
      assert elements - left + {k} == elements - (left - {k});
      keys := Insert(keys, k);
      left := left - {k};
    }
    assert elements - left == elements;
    ListsUnique(keys, SortedKeys(elements), elements);
  }
}
