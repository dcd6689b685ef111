/** Facts about sequences that all the modules use. */
module Sequences {
  lemma Associative<T>(a: seq<T>, b: seq<T>, c: seq<T>)
    ensures a + (b + c) == a + b + c
  {
  }

  /** What a history gained. */
  function Since<T(==)>(before: seq<T>, now: seq<T>): seq<T> {
    if before <= now then now[|before|..] else []
  }

  lemma SinceAppended<T>(before: seq<T>, more: seq<T>)
    ensures Since(before, before + more) == more
  {
  }

  lemma SinceMonotone<T>(before: seq<T>, now: seq<T>, later: seq<T>)
    requires before <= now <= later
    ensures Since(before, now) <= Since(before, later)
    ensures later == before + Since(before, later)
  {
  }

  lemma SameFront<T>(a: seq<T>, b: seq<T>, c: seq<T>)
    requires a + b == a + c
    ensures b == c
  {
    assert (a + b)[|a|..] == b && (a + c)[|a|..] == c;
  }
}
