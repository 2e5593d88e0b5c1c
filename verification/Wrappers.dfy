/** The optional value that stands for a nullable column, and Python's notion of a present id. */
module Wrappers {

  datatype Option<+T> = None | Some(value: T)

  /** SQL's COALESCE of two nullable values. */
  function Coalesce<T>(first: Option<T>, second: Option<T>): Option<T> {
    if first.Some? then first else second
  }

  /** Python's truthiness of an optional id: a missing id and the id zero are both absent. */
  predicate Truthy(id: Option<int>) {
    id.Some? && id.value != 0
  }

  /** The distinct elements of a sequence. */
  function Elements<T>(s: seq<T>): set<T> {
    set x | x in s
  }

  lemma Pick<T>(s: set<T>) returns (x: T)
    requires s != {}
    ensures x in s
  {
    x :| x in s;
  }

  /** Some enumeration of a finite set. */
  lemma Enumerate<T>(s: set<T>) returns (q: seq<T>)
    ensures Elements(q) == s
  {
    if s == {} {
      q := [];
    } else {
      var x :| x in s;
      var rest := Enumerate(s - {x});
      q := [x] + rest;
      assert Elements(q) == {x} + Elements(rest);
    }
  }
}
