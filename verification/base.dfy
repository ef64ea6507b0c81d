/** Optional values, standing in for Python's `None`, and small sequence helpers. */
module Base {

  datatype Option<+T> = None | Some(value: T)

  function Max(a: int, b: int): int
  {
    if a < b then b else a
  }

  /** Concatenation of a list of lists. */
  function Flatten<T>(xss: seq<seq<T>>): seq<T>
  {
    if xss == [] then [] else xss[0] + Flatten(xss[1..])
  }

  lemma {:induction false} FlattenConcat<T>(a: seq<seq<T>>, b: seq<seq<T>>)
    ensures Flatten(a + b) == Flatten(a) + Flatten(b)
  {
    if a == [] {
      assert a + b == b;
    } else {
      assert (a + b)[0] == a[0];
      assert (a + b)[1..] == a[1..] + b;
      FlattenConcat(a[1..], b);
    }
  }
}
