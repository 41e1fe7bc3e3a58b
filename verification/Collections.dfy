/** Optional values and lists without repetition. */
module Collections {

  datatype Option<+T> = None | Some(value: T)

  predicate Distinct<T(==)>(s: seq<T>) {
    forall i, j | 0 <= i < j < |s| :: s[i] != s[j]
  }

  lemma DistinctStarts<T>(s: seq<T>)
    ensures Distinct(s[..0]) && s[..|s|] == s
  {
  }

  lemma DistinctFirst<T>(s: seq<T>)
    requires s != [] && Distinct(s)
    ensures Distinct(s[1..]) && s == [s[0]] + s[1..] && forall i | 0 < i < |s| :: s[i] != s[0]
  {
  }

  /** A list without repetition, taken from its end. */
  lemma DistinctLast<T>(s: seq<T>)
    requires s != [] && Distinct(s)
    ensures var n := |s| - 1;
      Distinct(s[..n]) && s == s[..n] + [s[n]] && forall i | 0 <= i < n :: s[i] != s[n]
  {
  }

  /** How a loop that remembers what it has seen decides whether a list is distinct. */
  lemma DistinctSoFar<T>(s: seq<T>, i: nat)
    requires i < |s| && Distinct(s[..i])
    ensures s[i] in s[..i] ==> !Distinct(s)
    ensures s[i] !in s[..i] ==> Distinct(s[..i + 1])
    ensures s[..i + 1] == s[..i] + [s[i]] && s[..i + 1][..i] == s[..i] && s[..|s|] == s
  {
    if s[i] in s[..i] {
      var j :| 0 <= j < i && s[..i][j] == s[i];
      assert s[j] == s[i];
    } else {
      forall j | 0 <= j < i ensures s[j] != s[i] {
        assert s[..i][j] == s[j];
      }
    }
  }

  /** A loop that has collected `done` and, if `rest` is there, goes on with it. */
  ghost function Joined<T>(done: seq<T>, rest: Option<seq<T>>): Option<seq<T>> {
    if rest.None? then None else Some(done + rest.value)
  }

  lemma JoinedEnds<T>(done: seq<T>, all: Option<seq<T>>)
    ensures Joined([], all) == all && Joined(done, None) == None && Joined(done, Some([])) == Some(done)
  {
    if all.Some? {
      assert [] + all.value == all.value;
    }
    assert done + [] == done;
  }

  lemma JoinedStep<T>(done: seq<T>, x: T, rest: Option<seq<T>>)
    ensures Joined(done + [x], rest) == Joined(done, if rest.None? then None else Some([x] + rest.value))
  {
    if rest.Some? {
      assert done + [x] + rest.value == done + ([x] + rest.value);
    }
  }
}
