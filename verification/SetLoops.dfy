/** Loops that visit the elements of a set one by one. */
module SetLoops {
  /** A loop over a set: what has been visited and what is still to come. */
  predicate Splits<T(==)>(seen: set<T>, rest: set<T>, all: set<T>) {
    seen + rest == all && seen !! rest
  }

  lemma SplitsMore<T>(seen: set<T>, rest: set<T>, all: set<T>, x: T)
    requires Splits(seen, rest, all) && x in rest
    ensures x in all && x !in seen && Splits(seen + {x}, rest - {x}, all)
  {
  }

  lemma SplitsEnds<T>(all: set<T>, seen: set<T>)
    ensures Splits({}, all, all) && (Splits(seen, {}, all) ==> seen == all)
  {
  }
}
