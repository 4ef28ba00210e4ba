/** What all modules share: the option type, with Python's `a or b` on missing values, and row
    orders that list each row once. */
module Prelude {
  datatype Option<+T> = None | Some(value: T) {
    function OrElse(other: Option<T>): Option<T> {
      if Some? then this else other
    }
  }

  ghost predicate Distinct<T>(s: seq<T>) {
    forall i, j :: 0 <= i < j < |s| ==> s[i] != s[j]
  }

  ghost predicate Enumerates<T(!new)>(order: seq<T>, keys: set<T>) {
    && (forall k :: k in keys <==> k in order)
    && Distinct(order)
  }

  lemma DistinctPrefix<T>(s: seq<T>)
    requires Distinct(s) && s != []
    ensures var n := |s| - 1;
            Distinct(s[..n]) && s[n] !in s[..n] && s == s[..n] + [s[n]]
  {
  }
}
