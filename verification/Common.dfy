/** An optional value, shared by the models. */
module Common {
  datatype Option<+T> = None | Some(value: T)
}

/** Lists from which one element is taken at a time. */
module Lists {
  /** QList::removeOne: the first occurrence goes. */
  function RemoveOne<T(==)>(s: seq<T>, x: T): seq<T> {
    if s == [] then [] else if s[0] == x then s[1..] else [s[0]] + RemoveOne(s[1..], x)
  }

  ghost predicate NoDuplicates<T>(s: seq<T>) {
    forall i, j :: 0 <= i < j < |s| ==> s[i] != s[j]
  }

  lemma {:induction false} RemoveOneMembers<T>(s: seq<T>, x: T)
    requires NoDuplicates(s)
    ensures NoDuplicates(RemoveOne(s, x))
    ensures forall y :: y in RemoveOne(s, x) <==> y in s && y != x
  {
    if s != [] {
      assert s == [s[0]] + s[1..];
      assert s[0] !in s[1..];
      if s[0] != x {
        RemoveOneMembers(s[1..], x);
        assert s[0] !in RemoveOne(s[1..], x);
      }
    }
  }
}
