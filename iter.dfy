/** The iterator an adapter wraps, modelled as a cursor over a finite sequence.
    `pos` is the number of times `next()` has been called on the cursor; every call
    at or past the end yields None, so the cursor is a fused iterator. */
module Iter {

  datatype Option<+T> = None | Some(value: T)

  /** The remaining elements are `elems[pos..]`; `pos` may exceed `|elems|` once
      the cursor has been pulled past its end. */
  datatype Cursor<T> = Cursor(elems: seq<T>, pos: nat)

  /** A fresh iterator over `s`, nothing pulled yet. */
  function Over<T>(s: seq<T>): Cursor<T>
  {
    Cursor(s, 0)
  }

  /** The element at index `k` of `s`, or None when `k` is past the end. */
  function At<T>(s: seq<T>, k: nat): Option<T>
  {
    if k < |s| then Some(s[k]) else None
  }

  /** `Iterator::next`: yields the element under the cursor (None past the end)
      and moves the cursor by exactly one pull. */
  function Next<T>(c: Cursor<T>): (r: (Option<T>, Cursor<T>))
    ensures r.1.elems == c.elems && r.1.pos == c.pos + 1
    ensures r.0.Some? <==> c.pos < |c.elems|
    ensures r.0.Some? ==> r.0.value == c.elems[c.pos]
  {
    if c.pos < |c.elems| then (Some(c.elems[c.pos]), Cursor(c.elems, c.pos + 1))
    else (None, Cursor(c.elems, c.pos + 1))
  }

  /** Once exhausted, a cursor stays exhausted. */
  lemma NextFused<T>(c: Cursor<T>)
    requires Next(c).0 == None
    ensures Next(Next(c).1).0 == None
  {
  }
}
