# advance-iter in Dafny

A model of the Rust crate `advance-iter`: two lookahead adapters over an iterator.
`Advance` caches the iterator's next element in `current` and replaces it
when the caller calls `advance`. `CountingAdvance` does the same and also counts
the `advance` calls in `counter`.

Layout:

- `iter.dfy`, module `Iter`: the wrapped iterator, modelled as a cursor over a finite
  sequence (`Cursor(elems, pos)`). `pos` counts the calls to `next()`. A pull at or
  past the end yields `None`, so the cursor is a fused iterator. The cursor is a value
  held in the adapter's `iter` field, so nothing else can reach it, which matches the
  adapter owning its iterator.
- `lookahead.dfy`, module `Lookahead`: the behaviour both adapters share, written as a
  state machine over values. A `View` holds the cached element, the iterator and the
  number of advances. `Wrap` models `new` and `Step` models one call (`Advanced`, or
  `Written(v)` for a write through `current_mut`). `Replay` runs a history of calls.
  The lemmas state what holds after any sequence of calls.
- `adapters.dfy`, module `AdvanceIter`: the two structs as classes with the source's
  fields. Each class also has a ghost `origin` (the iterator it was built from) and a
  ghost `history` (the calls made so far). `Valid()` says the fields are exactly what
  `Replay(Wrap(origin), history)` gives. `Advance` has no counter field, so its view
  uses the number of `Advanced` events in the history.
- `scenarios.dfy`, module `Scenarios`: client methods that use only the contracts,
  over `[10, 20, 30]`, over the empty sequence, and over `[5]` with its element
  overwritten by 99.

`current_mut` hands out a mutable reference to the cached slot, or `None` when there
is nothing cached. It is modelled as `SetCurrent(v) returns (written)`, which acts like
`if let Some(x) = a.current_mut() { *x = v }`. It writes `v` exactly when `current`
is `Some`, and it never touches the iterator or the counter. `current()` and
`counter()` take `&self`, so they are Dafny functions and cannot change any state.

## Model

| member | source | states |
|---|---|---|
| `Iter.Next` | src/lib.rs:31 | the iterator yields the element under the cursor, or None at or past the end, and moves on by exactly one pull |
| `Lookahead.Wrap` | src/lib.rs:22-27 | `new` seeds `current` with the iterator's first remaining element (None if there is none), pulls exactly once, and starts the counter at 0 |
| `Lookahead.Step` | src/lib.rs:30-42 | an advance pulls exactly one element into `current` and discards the old one; a write replaces the cached element only if there is one and changes neither the iterator nor the counter |
| `Lookahead.ReplayCounts` | src/lib.rs:74-77 | over any history of calls, the iterator's elements stay the same, it is pulled once per advance and at no other time, and the counter rises by exactly the number of advances |
| `Lookahead.ReplayCoherent` | src/lib.rs:30-42 | every call keeps `current` Some exactly when the element last pulled existed |
| `Lookahead.ReplayEndsWithAdvance` | src/lib.rs:30-32 | right after an advance, `current` is the element that advance pulled, at index start + number of advances - 1 |
| `Lookahead.AfterAdvances` | src/lib.rs:19-32 | over a fresh iterator on `s`, after k advances `current` is `s[k]` (None once k reaches the length of `s`), k + 1 elements have been pulled, and the counter is k |
| `Lookahead.ExhaustedStaysExhausted` | src/lib.rs:30-32 | once `current` is None it stays None after any further calls |
| `Lookahead.WriteForgotten` | src/lib.rs:39-42 | a write through `current_mut` is undone by the next advance: every state after that advance is the same as if the write had never been made |
| `AdvanceIter.Advance.constructor` | src/lib.rs:19-27 | `current` is the first remaining element of the iterator (or None), the iterator has been pulled exactly once, and the history is empty |
| `AdvanceIter.Advance.Advance` | src/lib.rs:30-32 | `current` becomes the element under the old cursor (or None), the cursor moves by one, a None `current` stays None, and the invariant holds |
| `AdvanceIter.Advance.Current` | src/lib.rs:35-37 | returns the cached element that the history of calls determines, without changing any state |
| `AdvanceIter.Advance.SetCurrent` | src/lib.rs:40-42 | writes `v` into the cached slot exactly when there is one, says whether it wrote, and leaves the iterator alone |
| `AdvanceIter.CountingAdvance.constructor` | src/lib.rs:61-71 | the counter is 0, `current` is the first remaining element (or None), and the iterator has been pulled exactly once |
| `AdvanceIter.CountingAdvance.Advance` | src/lib.rs:74-77 | the counter rises by exactly 1 whether or not the iterator is exhausted, and `current` and the cursor change as for `Advance.Advance` |
| `AdvanceIter.CountingAdvance.Counter` | src/lib.rs:80-82 | returns the number of `advance` calls since `new`, without changing any state |
| `AdvanceIter.CountingAdvance.Current` | src/lib.rs:85-87 | returns the cached element that the history of calls determines, without changing any state |
| `AdvanceIter.CountingAdvance.SetCurrent` | src/lib.rs:90-92 | writes `v` into the cached slot exactly when there is one, and changes neither the iterator nor the counter |
| `AdvanceIter.AdvanceAfterAdvances` | src/lib.rs:4-6 | an `Advance` built over a fresh iterator on `s` and advanced k times caches `s[k]`, or None once k reaches the length of `s` |
| `AdvanceIter.CountingAfterAdvances` | src/lib.rs:45-47 | a `CountingAdvance` built over a fresh iterator on `s` and advanced k times caches `s[k]` (or None) and its counter reads k |

## Left out

- Overflow of `counter += 1` on `usize` (src/lib.rs:75): the counter is a `nat`. The model does not claim the debug-build panic or the release-build wrap-around.
- Iterators other than a finite sequence. The crate accepts any `Iterator`: infinite ones, ones with side effects, and ones that yield again after `None`. The model's iterator is a fused cursor over a `seq`, so "once None, stays None" is proved only for it.
- The derived `Debug`, `Copy`, `Clone`, `Eq` and `PartialEq` impls and the `#[inline]` hints. The compiler generates the impls, and the hints only affect performance.
- The difference between `&` and `&mut` references. `current()` is modelled as reading a value. `current_mut()` is modelled as replacing the whole cached value, and any in-place change to the slot can be written as such a replacement.
