/** Datatypes shared by every component of the model. */
module Common {

  /** A value that may be absent: `undefined`, `null` or a query that found no row. */
  datatype Option<+T> = None | Some(value: T)

  /** What a service call ends with: a value, or the exception it threw. */
  datatype Result<+T, +E> = Ok(value: T) | Err(error: E)

  type Id = string

  function Min(a: nat, b: nat): nat {
    if a <= b then a else b
  }

  lemma SubsetIsNoLarger<T>(a: set<T>, b: set<T>)
    requires a <= b
    ensures |a| <= |b|
  {
    assert b == a + (b - a);
  }

  // ---------------------------------------------------------------------------------------------
  // Texts joined by colons
  // ---------------------------------------------------------------------------------------------

  predicate ColonFree(text: string) {
    ':' !in text
  }

  /** The position of the first colon, or the length of a text without one. */
  function ColonIndex(text: string): nat {
    if text == "" || text[0] == ':' then 0 else 1 + ColonIndex(text[1..])
  }

  lemma {:induction false} ColonIndexOf(head: string, tail: string)
    requires ColonFree(head)
    ensures ColonIndex(head + ":" + tail) == |head|
  {
    var text := head + ":" + tail;
    if head == "" {
      assert text[0] == ':';
    } else {
      assert text[0] == head[0];
      assert text[1..] == head[1..] + ":" + tail;
      ColonIndexOf(head[1..], tail);
    }
  }

  /** A text whose first part holds no colon can be taken apart again. */
  lemma JoinIsInjective(a: string, x: string, b: string, y: string)
    requires ColonFree(a) && ColonFree(b)
    requires a + ":" + x == b + ":" + y
    ensures a == b && x == y
  {
    ColonIndexOf(a, x);
    ColonIndexOf(b, y);
    var text := a + ":" + x;
    assert a == text[..|a|] == b;
    assert x == text[|a| + 1..] == y;
  }
}
