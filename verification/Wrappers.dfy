/** Optional values and outcomes shared by the other modules. */
module Wrappers {
  datatype Option<+T> = None | Some(value: T)

  datatype Outcome<+E> = Pass | Fail(error: E)

  datatype Result<+T, +E> = Success(value: T) | Failure(error: E)

  ghost function Elements<T>(list: seq<T>): set<T> {
    set x | x in list
  }

  lemma ElementsMore<T>(list: seq<T>, x: T)
    ensures Elements(list + [x]) == Elements(list) + {x}
  {
  }

  lemma Grouped<T>(a: seq<T>, b: seq<T>, c: seq<T>)
    ensures a + b + c == a + (b + c)
  {
  }

  ghost predicate Distinct<T>(list: seq<T>) {
    forall i, j :: 0 <= i < j < |list| ==> list[i] != list[j]
  }
}
