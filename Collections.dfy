/**
 * The growable list the source tools use as an accumulator: a caller
 * allocates it and hands it to a traversal, which only ever appends.
 */
module Collections {

  class ArrayList<T> {
    var elements: seq<T>

    constructor ()
      ensures elements == []
    {
      elements := [];
    }

    /** Appends one element at the end. */
    method Add(x: T)
      modifies this
      ensures elements == old(elements) + [x]
    {
      elements := elements + [x];
    }

    /** Appends all of `xs`, in order, at the end. */
    method AddAll(xs: seq<T>)
      modifies this
      ensures elements == old(elements) + xs
    {
      elements := elements + xs;
    }
  }

  // Appending in steps is appending the pieces joined: the accumulator
  // loops rely on this to show their list grows by whole parts.

  lemma AppendAssoc<T>(s: seq<T>, a: seq<T>, b: seq<T>)
    ensures s + a + b == s + (a + b)
  {
  }

  lemma AppendAssoc3<T>(s: seq<T>, a: seq<T>, b: seq<T>, c: seq<T>)
    ensures s + a + b + c == s + (a + b + c)
  {
  }

  lemma AppendEmpty<T>(s: seq<T>)
    ensures s + [] == s && [] + s == s
  {
  }
}
