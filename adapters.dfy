/** The two adapters of the crate. Each keeps, as ghost state, the iterator it was
    built from (`origin`) and the state-changing calls made on it so far
    (`history`); `Valid()` says that the real fields are exactly what the
    specification in module Lookahead gives for that history. */
module AdvanceIter {
  import opened Iter
  import opened Lookahead

  /** Wraps an iterator and caches its next element in `current`. */
  class Advance<T> {
    var current: Option<T>
    var iter: Cursor<T>
    ghost const origin: Cursor<T>
    ghost var history: seq<Event<T>>

    ghost function View(): View<T>
      reads this
    {
      Lookahead.View(current, iter, Advances(history))
    }

    ghost predicate Valid()
      reads this
    {
      View() == Replay(Wrap(origin), history)
    }

    /** `Advance::new`: pulls the first element of `it`, if any, into `current`. */
    constructor (it: Cursor<T>)
      ensures Valid() && origin == it && history == []
      ensures current == At(it.elems, it.pos)
      ensures iter == Cursor(it.elems, it.pos + 1)
    {
      var (first, rest) := Next(it);
      current := first;
      iter := rest;
      origin := it;
      history := [];
    }

    /** `Advance::advance`: pulls exactly one element and overwrites `current`
        with it, or with None when the iterator is exhausted. */
    method Advance()
      requires Valid()
      modifies this
      ensures Valid() && history == old(history) + [Advanced]
      ensures old(current) == None ==> current == None
      ensures current == At(old(iter).elems, old(iter).pos)
      ensures iter == Cursor(old(iter).elems, old(iter).pos + 1)
    {
      WrapCoherent(origin);
      ReplayCoherent(Wrap(origin), history);
      var (next, rest) := Next(iter);
      current := next;
      iter := rest;
      ReplayAppend(Wrap(origin), history, Advanced);
      history := history + [Advanced];
    }

    /** `Advance::current`: the cached element, as the history determines it. */
    function Current(): (r: Option<T>)
      requires Valid()
      reads this
      ensures r == Replay(Wrap(origin), history).current
    {
      current
    }

    /** `Advance::current_mut` used to store `v` in the cached slot. The slot exists
        only when `current` is Some; otherwise nothing is written. The iterator is
        not touched. */
    method SetCurrent(v: T) returns (written: bool)
      requires Valid()
      modifies this
      ensures Valid() && history == old(history) + [Written(v)]
      ensures written == old(current).Some?
      ensures current == if written then Some(v) else old(current)
      ensures iter == old(iter)
    {
      written := current.Some?;
      if written {
        current := Some(v);
      }
      ReplayAppend(Wrap(origin), history, Written(v));
      history := history + [Written(v)];
    }
  }

  /** Like Advance, and also counts the `advance` calls in `counter`. */
  class CountingAdvance<T> {
    var counter: nat
    var current: Option<T>
    var iter: Cursor<T>
    ghost const origin: Cursor<T>
    ghost var history: seq<Event<T>>

    ghost function View(): View<T>
      reads this
    {
      Lookahead.View(current, iter, counter)
    }

    ghost predicate Valid()
      reads this
    {
      View() == Replay(Wrap(origin), history)
    }

    /** `CountingAdvance::new`: starts the counter at zero and pulls the first
        element of `it`, if any, into `current`. */
    constructor (it: Cursor<T>)
      ensures Valid() && origin == it && history == []
      ensures counter == 0
      ensures current == At(it.elems, it.pos)
      ensures iter == Cursor(it.elems, it.pos + 1)
    {
      counter := 0;
      var (first, rest) := Next(it);
      current := first;
      iter := rest;
      origin := it;
      history := [];
    }

    /** `CountingAdvance::advance`: increments the counter by one, whether or not
        the iterator is exhausted, and pulls exactly one element into `current`. */
    method Advance()
      requires Valid()
      modifies this
      ensures Valid() && history == old(history) + [Advanced]
      ensures old(current) == None ==> current == None
      ensures counter == old(counter) + 1
      ensures current == At(old(iter).elems, old(iter).pos)
      ensures iter == Cursor(old(iter).elems, old(iter).pos + 1)
    {
      counter := counter + 1;
      WrapCoherent(origin);
      ReplayCoherent(Wrap(origin), history);
      var (next, rest) := Next(iter);
      current := next;
      iter := rest;
      ReplayAppend(Wrap(origin), history, Advanced);
      history := history + [Advanced];
    }

    /** `CountingAdvance::counter`: the number of `advance` calls since `new`. */
    function Counter(): (r: nat)
      requires Valid()
      reads this
      ensures r == Advances(history)
    {
      ReplayCounts(Wrap(origin), history);
      counter
    }

    /** `CountingAdvance::current`: the cached element, as the history determines it. */
    function Current(): (r: Option<T>)
      requires Valid()
      reads this
      ensures r == Replay(Wrap(origin), history).current
    {
      current
    }

    /** `CountingAdvance::current_mut` used to store `v` in the cached slot, when
        there is one. Neither the iterator nor the counter is touched. */
    method SetCurrent(v: T) returns (written: bool)
      requires Valid()
      modifies this
      ensures Valid() && history == old(history) + [Written(v)]
      ensures written == old(current).Some?
      ensures current == if written then Some(v) else old(current)
      ensures iter == old(iter) && counter == old(counter)
    {
      written := current.Some?;
      if written {
        current := Some(v);
      }
      ReplayAppend(Wrap(origin), history, Written(v));
      history := history + [Written(v)];
    }
  }

  /** An Advance wrapped around a fresh iterator over `s` and advanced `k` times
      caches `s[k]`, or None once `k` reaches `|s|`. */
  lemma AdvanceAfterAdvances<T>(a: Advance<T>, s: seq<T>, k: nat)
    requires a.Valid() && a.origin == Over(s) && a.history == Repeat(k)
    ensures a.Current() == At(s, k)
    ensures a.iter == Cursor(s, k + 1)
  {
    AfterAdvances(s, k);
  }

  /** The same for CountingAdvance, whose counter then reads `k`. */
  lemma CountingAfterAdvances<T>(a: CountingAdvance<T>, s: seq<T>, k: nat)
    requires a.Valid() && a.origin == Over(s) && a.history == Repeat(k)
    ensures a.Current() == At(s, k) && a.Counter() == k
    ensures a.iter == Cursor(s, k + 1)
  {
    AfterAdvances(s, k);
  }
}
