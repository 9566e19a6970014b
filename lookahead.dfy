/** The behaviour shared by both adapters, as a state machine over values.
    A `View` is what an adapter holds: the cached `current` element, the wrapped
    iterator, and the number of `advance` calls made so far. */
module Lookahead {
  import opened Iter

  /** The state-changing calls a caller can make on an adapter. `Written(v)` is a
      write of `v` through the slot `current_mut` hands out. */
  datatype Event<T> = Advanced | Written(value: T)

  datatype View<T> = View(current: Option<T>, iter: Cursor<T>, counter: nat)

  /** `new`: pull one element from `it` to seed `current`; the counter starts at 0. */
  function Wrap<T>(it: Cursor<T>): (v: View<T>)
    ensures v.current == At(it.elems, it.pos)
    ensures v.iter.elems == it.elems && v.iter.pos == it.pos + 1
    ensures v.counter == 0
  {
    var (first, rest) := Next(it);
    View(first, rest, 0)
  }

  /** The effect of one call. `Advanced` pulls exactly one element and discards the
      old cached one; `Written(x)` replaces the cached element, if there is one,
      and touches neither the iterator nor the counter. */
  function Step<T>(v: View<T>, e: Event<T>): (w: View<T>)
    ensures e.Advanced? ==> w.current == At(v.iter.elems, v.iter.pos)
    ensures e.Advanced? ==> w.iter.elems == v.iter.elems && w.iter.pos == v.iter.pos + 1
    ensures e.Advanced? ==> w.counter == v.counter + 1
    ensures e.Written? ==> w.iter == v.iter && w.counter == v.counter
    ensures e.Written? ==> w.current == if v.current.Some? then Some(e.value) else None
  {
    match e
    case Advanced =>
      var (next, rest) := Next(v.iter);
      View(next, rest, v.counter + 1)
    case Written(x) =>
      if v.current.Some? then v.(current := Some(x)) else v
  }

  /** The state after the calls in `h`, in order, starting from `v`. */
  function Replay<T>(v: View<T>, h: seq<Event<T>>): View<T>
    decreases |h|
  {
    if h == [] then v else Step(Replay(v, h[..|h| - 1]), h[|h| - 1])
  }

  /** The number of `advance` calls in `h`. */
  function Advances<T>(h: seq<Event<T>>): (n: nat)
    ensures n <= |h|
    decreases |h|
  {
    if h == [] then 0
    else Advances(h[..|h| - 1]) + (if h[|h| - 1].Advanced? then 1 else 0)
  }

  /** `k` consecutive `advance` calls. */
  function Repeat<T>(k: nat): (h: seq<Event<T>>)
    ensures |h| == k
    ensures forall i :: 0 <= i < k ==> h[i] == Advanced
  {
    if k == 0 then [] else Repeat(k - 1) + [Advanced]
  }

  /** `current` is Some exactly when the last element pulled existed: a write never
      turns the cache from None into Some or back. */
  ghost predicate Coherent<T>(v: View<T>)
  {
    v.iter.pos >= 1 && (v.current.Some? <==> v.iter.pos - 1 < |v.iter.elems|)
  }

  /** Replaying one more call is one more step. */
  lemma ReplayAppend<T>(v: View<T>, h: seq<Event<T>>, e: Event<T>)
    ensures Replay(v, h + [e]) == Step(Replay(v, h), e)
    ensures Advances(h + [e]) == Advances(h) + (if e.Advanced? then 1 else 0)
  {
    assert (h + [e])[..|h|] == h;
  }

  lemma WrapCoherent<T>(it: Cursor<T>)
    ensures Coherent(Wrap(it))
  {
  }

  lemma {:induction false} AdvancesConcat<T>(h1: seq<Event<T>>, h2: seq<Event<T>>)
    ensures Advances(h1 + h2) == Advances(h1) + Advances(h2)
    decreases |h2|
  {
    if h2 != [] {
      var front := h2[..|h2| - 1];
      assert (h1 + h2)[..|h1 + h2| - 1] == h1 + front;
      AdvancesConcat(h1, front);
    } else {
      assert h1 + h2 == h1;
    }
  }

  lemma {:induction false} AdvancesRepeat<T>(k: nat)
    ensures Advances(Repeat<T>(k)) == k
  {
    if k > 0 {
      var h := Repeat<T>(k);
      assert h[..|h| - 1] == Repeat<T>(k - 1);
      AdvancesRepeat<T>(k - 1);
    }
  }

  /** The iterator is pulled exactly once per `advance` call and never otherwise,
      its elements are never changed, and the counter counts the `advance` calls. */
  lemma {:induction false} ReplayCounts<T>(v: View<T>, h: seq<Event<T>>)
    ensures Replay(v, h).iter.elems == v.iter.elems
    ensures Replay(v, h).iter.pos == v.iter.pos + Advances(h)
    ensures Replay(v, h).counter == v.counter + Advances(h)
    decreases |h|
  {
    if h != [] {
      ReplayCounts(v, h[..|h| - 1]);
    }
  }

  /** Every call keeps `current` coherent with the iterator. */
  lemma {:induction false} ReplayCoherent<T>(v: View<T>, h: seq<Event<T>>)
    requires Coherent(v)
    ensures Coherent(Replay(v, h))
    decreases |h|
  {
    if h != [] {
      ReplayCoherent(v, h[..|h| - 1]);
    }
  }

  /** Right after an `advance`, `current` is the element at the iterator's new
      position minus one: the one that call pulled. */
  lemma {:induction false} ReplayEndsWithAdvance<T>(v: View<T>, h: seq<Event<T>>)
    requires h != [] && h[|h| - 1] == Advanced
    ensures Advances(h) >= 1
    ensures Replay(v, h).current == At(v.iter.elems, v.iter.pos + Advances(h) - 1)
  {
    ReplayCounts(v, h[..|h| - 1]);
  }

  /** On an adapter wrapped around a fresh iterator over `s`, after `k` advances
      `current` is `s[k]` (None once `k >= |s|`), exactly `k + 1` elements have been
      pulled and the counter is `k`. */
  lemma {:induction false} AfterAdvances<T>(s: seq<T>, k: nat)
    ensures Replay(Wrap(Over(s)), Repeat(k)).current == At(s, k)
    ensures Replay(Wrap(Over(s)), Repeat(k)).iter == Cursor(s, k + 1)
    ensures Replay(Wrap(Over(s)), Repeat(k)).counter == k
  {
    var h := Repeat<T>(k);
    AdvancesRepeat<T>(k);
    ReplayCounts(Wrap(Over(s)), h);
    if k > 0 {
      ReplayEndsWithAdvance(Wrap(Over(s)), h);
    }
  }

  /** Once `current` is None it stays None, whatever calls follow. */
  lemma {:induction false} ExhaustedStaysExhausted<T>(v: View<T>, h: seq<Event<T>>)
    requires Coherent(v) && v.current == None
    ensures Replay(v, h).current == None
  {
    ReplayCoherent(v, h);
    ReplayCounts(v, h);
  }

  /** A write through `current_mut` is forgotten by the next `advance`: the
      iterator still yields its own next element, and every later state is the
      same as if the write had not been made. */
  lemma {:induction false} WriteForgotten<T>(v: View<T>, h1: seq<Event<T>>, x: T, h2: seq<Event<T>>)
    requires Advanced in h2
    ensures Replay(v, h1 + [Written(x)] + h2) == Replay(v, h1 + h2)
    decreases |h2|
  {
    var front := h2[..|h2| - 1];
    var withWrite := h1 + [Written(x)] + h2;
    var without := h1 + h2;
    assert withWrite[..|withWrite| - 1] == h1 + [Written(x)] + front;
    assert without[..|without| - 1] == h1 + front;
    if h2[|h2| - 1] == Advanced {
      ReplayCounts(v, h1 + [Written(x)] + front);
      ReplayCounts(v, h1 + front);
      AdvancesConcat(h1 + [Written(x)], front);
      AdvancesConcat(h1, [Written(x)]);
      AdvancesConcat(h1, front);
      assert Advances([Written(x)]) == 0 by {
        assert [Written(x)][..0] == [];
      }
    } else {
      assert Advanced in front by {
        var i :| 0 <= i < |h2| && h2[i] == Advanced;
        assert front[i] == Advanced;
      }
      WriteForgotten(v, h1, x, front);
    }
  }
}
