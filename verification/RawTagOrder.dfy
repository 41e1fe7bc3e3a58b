/** Raw tags regardless of the order in which they were captured: views of tags
    and groups by key, sorting by key, and that sorting keeps the view and
    depends on nothing else. */
module RawTagOrder {
  import opened Collections
  import opened Streams
  import opened Sorting
  import opened RegistryModel
  import opened ConfigurationCodec
  import opened CaptureCodec

  /** The ids of each tag, by key. */
  function TagView(tags: seq<RawTag>): map<Identifier, seq<int32>> {
    if tags == [] then map[]
    else TagView(tags[..|tags| - 1])[tags[|tags| - 1].key := tags[|tags| - 1].ids]
  }

  /** The ids of each tag of each registry, by key. */
  function GroupView(groups: seq<RawTagGroup>): map<Identifier, map<Identifier, seq<int32>>> {
    if groups == [] then map[]
    else
      var last := groups[|groups| - 1];
      GroupView(groups[..|groups| - 1])[last.registry := TagView(last.tags)]
  }

  lemma TagViewFinds(tags: seq<RawTag>)
    requires Distinct(RawKeys(tags))
    ensures forall k :: k in TagView(tags) <==> k in RawKeys(tags)
    ensures forall t | t in tags :: TagView(tags)[t.key] == t.ids
  {
    hide Distinct, TagView;
    TagViewAt(tags);
    forall t | t in tags ensures TagView(tags)[t.key] == t.ids {
      var i :| 0 <= i < |tags| && tags[i] == t;
    }
  }

  lemma {:induction false} TagViewAt(tags: seq<RawTag>)
    requires Distinct(RawKeys(tags))
    ensures forall k :: k in TagView(tags) <==> k in RawKeys(tags)
    ensures forall i | 0 <= i < |tags| :: TagView(tags)[tags[i].key] == tags[i].ids
  {
    if tags != [] {
      var n := |tags| - 1;
      var keys := RawKeys(tags);
      DistinctLast(keys);
      hide Distinct;
      assert RawKeys(tags[..n]) == keys[..n];
      TagViewAt(tags[..n]);
      forall i | 0 <= i < n ensures TagView(tags)[tags[i].key] == tags[i].ids {
        assert keys[i] != keys[n] && tags[..n][i] == tags[i];
      }
    }
  }

  lemma GroupViewFinds(groups: seq<RawTagGroup>)
    requires Distinct(RawGroupKeys(groups))
    ensures forall k :: k in GroupView(groups) <==> k in RawGroupKeys(groups)
    ensures forall g | g in groups :: GroupView(groups)[g.registry] == TagView(g.tags)
  {
    hide Distinct, GroupView, TagView;
    GroupViewAt(groups);
    forall g | g in groups ensures GroupView(groups)[g.registry] == TagView(g.tags) {
      var i :| 0 <= i < |groups| && groups[i] == g;
    }
  }

  lemma {:induction false} GroupViewAt(groups: seq<RawTagGroup>)
    requires Distinct(RawGroupKeys(groups))
    ensures forall k :: k in GroupView(groups) <==> k in RawGroupKeys(groups)
    ensures forall i | 0 <= i < |groups| :: GroupView(groups)[groups[i].registry] == TagView(groups[i].tags)
  {
    if groups != [] {
      var n := |groups| - 1;
      var keys := RawGroupKeys(groups);
      DistinctLast(keys);
      hide Distinct, TagView;
      assert RawGroupKeys(groups[..n]) == keys[..n];
      GroupViewAt(groups[..n]);
      forall i | 0 <= i < n ensures GroupView(groups)[groups[i].registry] == TagView(groups[i].tags) {
        assert keys[i] != keys[n] && groups[..n][i] == groups[i];
      }
    }
  }

  lemma KeyAmong(a: seq<RawTag>, b: seq<RawTag>)
    requires forall t | t in a :: t in b
    ensures forall k | k in RawKeys(a) :: k in RawKeys(b)
  {
    forall k | k in RawKeys(a) ensures k in RawKeys(b) {
      var i :| 0 <= i < |a| && RawKeys(a)[i] == k;
      assert a[i] in a;
      var j :| 0 <= j < |b| && b[j] == a[i];
      assert RawKeys(b)[j] == k;
    }
  }

  /** Two lists of distinct tags with the same members have the same view. */
  lemma SameMembersSameView(a: seq<RawTag>, b: seq<RawTag>)
    requires Distinct(RawKeys(a)) && Distinct(RawKeys(b))
    requires forall t :: t in a <==> t in b
    ensures TagView(a) == TagView(b)
  {
    hide TagView, Distinct;
    TagViewFinds(a);
    TagViewFinds(b);
    KeyAmong(a, b);
    KeyAmong(b, a);
    forall k | k in TagView(a) ensures TagView(b)[k] == TagView(a)[k] {
      var i :| 0 <= i < |a| && RawKeys(a)[i] == k;
      assert a[i] in a && a[i] in b;
    }
  }

  // ----- sorting by key -----

  function InsertTag(sorted: seq<RawTag>, t: RawTag): (r: seq<RawTag>)
    ensures |r| == |sorted| + 1
  {
    if sorted == [] || Less(t.key, sorted[0].key) then [t] + sorted
    else [sorted[0]] + InsertTag(sorted[1..], t)
  }

  /** sort.Slice of the tags by key. */
  function SortTags(tags: seq<RawTag>): (r: seq<RawTag>)
    ensures |r| == |tags|
  {
    if tags == [] then [] else InsertTag(SortTags(tags[..|tags| - 1]), tags[|tags| - 1])
  }

  lemma {:induction false} InsertTagMembers(sorted: seq<RawTag>, t: RawTag)
    ensures forall x :: x in InsertTag(sorted, t) <==> x in sorted || x == t
  {
    hide Less;
    if sorted != [] {
      InsertTagMembers(sorted[1..], t);
      assert sorted == [sorted[0]] + sorted[1..];
    }
  }

  lemma {:induction false} InsertTagKeys(sorted: seq<RawTag>, t: RawTag)
    ensures RawKeys(InsertTag(sorted, t)) == Insert(RawKeys(sorted), t.key)
  {
    hide Less;
    var keys := RawKeys(sorted);
    if sorted != [] && !Less(t.key, sorted[0].key) {
      InsertTagKeys(sorted[1..], t);
      assert keys[1..] == RawKeys(sorted[1..]);
      assert RawKeys(InsertTag(sorted, t)) == [keys[0]] + RawKeys(InsertTag(sorted[1..], t));
    } else {
      assert RawKeys([t] + sorted) == [t.key] + keys;
    }
  }

  function KeySet(tags: seq<RawTag>): set<Identifier> {
    set t | t in tags :: t.key
  }

  lemma NothingListed()
    ensures Lists(RawKeys([]), KeySet([]))
  {
  }

  lemma LastTag(tags: seq<RawTag>)
    requires tags != [] && Distinct(RawKeys(tags))
    ensures var front, t := tags[..|tags| - 1], tags[|tags| - 1];
      && Distinct(RawKeys(front)) && t.key !in KeySet(front) && KeySet(tags) == KeySet(front) + {t.key}
      && forall x :: x in tags <==> x in front || x == t
  {
    var n := |tags| - 1;
    var keys := RawKeys(tags);
    DistinctLast(keys);
    hide Distinct;
    assert RawKeys(tags[..n]) == keys[..n] && tags == tags[..n] + [tags[n]];
    forall x | x in tags[..n] ensures x.key != tags[n].key {
      var i :| 0 <= i < n && tags[i] == x;
      assert keys[i] != keys[n];
    }
  }

  lemma {:induction false} SortTagsLists(tags: seq<RawTag>)
    requires Distinct(RawKeys(tags))
    ensures forall x :: x in SortTags(tags) <==> x in tags
    ensures Lists(RawKeys(SortTags(tags)), KeySet(tags))
  {
    hide Distinct, Lists, Insert, InsertTag, KeySet;
    if tags == [] {
      NothingListed();
    } else {
      var front, t := tags[..|tags| - 1], tags[|tags| - 1];
      LastTag(tags);
      SortTagsLists(front);
      InsertTagKeys(SortTags(front), t);
      InsertTagMembers(SortTags(front), t);
      InsertLists(RawKeys(SortTags(front)), KeySet(front), t.key);
    }
  }

  lemma SortedIsDistinct(keys: seq<Identifier>)
    requires Sorted(keys)
    ensures Distinct(keys)
  {
    forall i, j | 0 <= i < j < |keys| ensures keys[i] != keys[j] {
      LessTrichotomy(keys[i], keys[j]);
    }
  }

  /** Sorting keeps the view. */
  lemma SortTagsView(tags: seq<RawTag>)
    requires Distinct(RawKeys(tags))
    ensures Distinct(RawKeys(SortTags(tags))) && TagView(SortTags(tags)) == TagView(tags)
  {
    SortTagsLists(tags);
    SortedIsDistinct(RawKeys(SortTags(tags)));
    SameMembersSameView(SortTags(tags), tags);
  }

  /** The sorted list depends on nothing but the view. */
  lemma SortTagsCanonical(a: seq<RawTag>, b: seq<RawTag>)
    requires Distinct(RawKeys(a)) && Distinct(RawKeys(b)) && TagView(a) == TagView(b)
    ensures SortTags(a) == SortTags(b)
  {
    SortTagsLists(a);
    SortTagsLists(b);
    SortTagsView(a);
    SortTagsView(b);
    TagViewFinds(SortTags(a));
    TagViewFinds(SortTags(b));
    var ka, kb := RawKeys(SortTags(a)), RawKeys(SortTags(b));
    TagViewFinds(a);
    TagViewFinds(b);
    KeySetIsView(a);
    KeySetIsView(b);
    ListsUnique(ka, kb, KeySet(a));
    forall i | 0 <= i < |ka| ensures SortTags(a)[i] == SortTags(b)[i] {
      assert SortTags(a)[i].key == ka[i] && SortTags(b)[i].key == kb[i];
      assert SortTags(a)[i] in SortTags(a) && SortTags(b)[i] in SortTags(b);
    }
  }

  lemma KeySetIsView(tags: seq<RawTag>)
    requires Distinct(RawKeys(tags))
    ensures KeySet(tags) == TagView(tags).Keys
  {
    TagViewFinds(tags);
    forall t | t in tags ensures t.key in TagView(tags) {
      var i :| 0 <= i < |tags| && tags[i] == t;
      assert RawKeys(tags)[i] == t.key;
    }
    forall k | k in TagView(tags) ensures k in KeySet(tags) {
      var i :| 0 <= i < |tags| && RawKeys(tags)[i] == k;
      assert tags[i] in tags;
    }
  }

  lemma {:induction false} SortTagsMembers(tags: seq<RawTag>)
    ensures forall t :: t in SortTags(tags) <==> t in tags
  {
    if tags != [] {
      var n := |tags| - 1;
      SortTagsMembers(tags[..n]);
      InsertTagMembers(SortTags(tags[..n]), tags[n]);
      assert tags == tags[..n] + [tags[n]];
    }
  }
}
