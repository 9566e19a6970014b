/** Callers of the adapters that rely on nothing but their contracts: the
    concrete sequences of calls the crate's documentation describes. */
module Scenarios {
  import opened Iter
  import opened Lookahead
  import opened AdvanceIter

  /** Wrapping [10, 20, 30]: the counter keeps counting past the end. */
  method CountingOverThree() {
    var a := new CountingAdvance(Over([10, 20, 30]));
    assert a.Current() == Some(10) && a.Counter() == 0;
    a.Advance();
    assert a.Current() == Some(20) && a.Counter() == 1;
    a.Advance();
    a.Advance();
    assert a.Current() == None && a.Counter() == 3;
    a.Advance();
    assert a.Current() == None && a.Counter() == 4;
  }

  /** Wrapping an empty sequence: no element, yet advancing still counts. */
  method CountingOverEmpty() {
    var a := new CountingAdvance(Over<int>([]));
    assert a.Current() == None && a.Counter() == 0;
    a.Advance();
    assert a.Current() == None && a.Counter() == 1;
  }

  /** Wrapping [5] and overwriting the cached 5 with 99: a read sees 99, and the
      next advance still finds the iterator exhausted. */
  method OverwriteThenAdvance() {
    var a := new Advance(Over([5]));
    var written := a.SetCurrent(99);
    assert written && a.Current() == Some(99);
    a.Advance();
    assert a.Current() == None;
  }

  /** A write on an exhausted adapter writes nothing. */
  method OverwriteWhenExhausted() {
    var a := new Advance(Over<int>([]));
    var written := a.SetCurrent(7);
    assert !written && a.Current() == None;
  }
}
