/** The day rotation of the write loop, read off the queue alone: which days
    a `while date := queue.get():` loop hands on and how many items it
    processes, when an item `stop`s the loop (an empty name), `closes` a day
    (hour 0, handing on `dayOf` it), and the loop ends at the closing item
    `last`. Stated over any item type, so that the reasoning about a whole
    queue does not look inside the names. */
module Rotation {
  import opened Seqs
  import opened Planner

  /** The days the loop over `q` hands on. */
  function HandedBy<T(==)>(q: seq<T>, last: T, stop: T -> bool, closes: T -> bool, dayOf: T -> string): seq<string>
    decreases |q|
  {
    if q == [] || stop(q[0]) then []
    else if closes(q[0]) && q[0] == last then [dayOf(q[0])]
    else (if closes(q[0]) then [dayOf(q[0])] else []) + HandedBy(q[1..], last, stop, closes, dayOf)
  }

  /** The number of items the loop over `q` processes. */
  function WrittenBy<T(==)>(q: seq<T>, last: T, stop: T -> bool, closes: T -> bool): nat
    decreases |q|
  {
    if q == [] || stop(q[0]) then 0
    else if closes(q[0]) && q[0] == last then 1
    else 1 + WrittenBy(q[1..], last, stop, closes)
  }

  /** The loop from position `i`. */
  lemma HandedAt<T>(q: seq<T>, i: nat, last: T, stop: T -> bool, closes: T -> bool, dayOf: T -> string)
    requires i < |q| && !stop(q[i])
    ensures HandedBy(q[i..], last, stop, closes, dayOf) ==
      if closes(q[i]) && q[i] == last then [dayOf(q[i])]
      else (if closes(q[i]) then [dayOf(q[i])] else []) + HandedBy(q[i + 1..], last, stop, closes, dayOf)
    ensures WrittenBy(q[i..], last, stop, closes) ==
      if closes(q[i]) && q[i] == last then 1 else 1 + WrittenBy(q[i + 1..], last, stop, closes)
  {
    DropDrop(q, i);
  }

  /** A queue of `24 * (m + 1)` items, none of which stops the loop, whose closing items sit at
      positions 23, 47, ..., the one at position `k` naming day `day(m - k / 24)`, and whose
      last item is `last` and the only one equal to it. */
  predicate Shaped<T(==)>(q: seq<T>, m: nat, day: nat -> string, last: T,
                          stop: T -> bool, closes: T -> bool, dayOf: T -> string)
  {
    && |q| == 24 * (m + 1)
    && (forall k :: 0 <= k < |q| ==> !stop(q[k]))
    && (forall k :: 0 <= k < |q| ==> (closes(q[k]) <==> k % 24 == 23))
    && (forall k, d :: 0 <= k < |q| && closes(q[k]) && k / 24 + d == m ==> dayOf(q[k]) == day(d))
    && (forall k :: 0 <= k < |q| ==> (q[k] == last <==> k == |q| - 1))
  }

  /** Over such a queue the loop from position `i` hands on `day(m - i / 24), ..., day(0)`
      and processes every remaining item. */
  lemma {:induction false} HandoffsOver<T>(q: seq<T>, m: nat, day: nat -> string, last: T,
                                               stop: T -> bool, closes: T -> bool, dayOf: T -> string, i: nat)
    requires Shaped(q, m, day, last, stop, closes, dayOf) && i < |q|
    ensures i / 24 <= m
    ensures HandedBy(q[i..], last, stop, closes, dayOf) == TabulateDown(day, m - i / 24)
    ensures WrittenBy(q[i..], last, stop, closes) == |q| - i
    decreases |q| - i, 1
  {
    DivMod24(i, i / 24, i % 24);
    if !closes(q[i]) {
      HandoffsPass(q, m, day, last, stop, closes, dayOf, i);
    } else if q[i] == last {
      HandoffsLast(q, m, day, last, stop, closes, dayOf, i);
    } else {
      HandoffsClose(q, m, day, last, stop, closes, dayOf, i);
    }
  }

  lemma {:induction false} HandoffsPass<T>(q: seq<T>, m: nat, day: nat -> string, last: T,
                                               stop: T -> bool, closes: T -> bool, dayOf: T -> string, i: nat)
    requires Shaped(q, m, day, last, stop, closes, dayOf) && i < |q| && !closes(q[i])
    ensures i / 24 <= m
    ensures HandedBy(q[i..], last, stop, closes, dayOf) == TabulateDown(day, m - i / 24)
    ensures WrittenBy(q[i..], last, stop, closes) == |q| - i
    decreases |q| - i, 0
  {
    var a := i / 24;
    DivMod24(i, a, i % 24);
    if i + 1 == |q| {
      DivMod24(i, m, 23);
    }
    DivMod24(i + 1, a, i % 24 + 1);
    HandoffsOver(q, m, day, last, stop, closes, dayOf, i + 1);
    HandedAt(q, i, last, stop, closes, dayOf);
    var rest := HandedBy(q[i + 1..], last, stop, closes, dayOf);
    assert [] + rest == rest;
  }

  lemma HandoffsLast<T>(q: seq<T>, m: nat, day: nat -> string, last: T,
                            stop: T -> bool, closes: T -> bool, dayOf: T -> string, i: nat)
    requires Shaped(q, m, day, last, stop, closes, dayOf) && i < |q| && closes(q[i]) && q[i] == last
    ensures i / 24 <= m
    ensures HandedBy(q[i..], last, stop, closes, dayOf) == TabulateDown(day, m - i / 24)
    ensures WrittenBy(q[i..], last, stop, closes) == |q| - i
  {
    DivMod24(i, m, 23);
    assert dayOf(q[i]) == day(0);
    HandedAt(q, i, last, stop, closes, dayOf);
  }

  lemma {:induction false} HandoffsClose<T>(q: seq<T>, m: nat, day: nat -> string, last: T,
                                                stop: T -> bool, closes: T -> bool, dayOf: T -> string, i: nat)
    requires Shaped(q, m, day, last, stop, closes, dayOf) && i < |q| && closes(q[i]) && q[i] != last
    ensures i / 24 <= m
    ensures HandedBy(q[i..], last, stop, closes, dayOf) == TabulateDown(day, m - i / 24)
    ensures WrittenBy(q[i..], last, stop, closes) == |q| - i
    decreases |q| - i, 0
  {
    var a := i / 24;
    DivMod24(i, a, 23);
    DivMod24(i + 1, a + 1, 0);
    HandoffsOver(q, m, day, last, stop, closes, dayOf, i + 1);
    var rest := TabulateDown(day, m - (a + 1));
    assert HandedBy(q[i + 1..], last, stop, closes, dayOf) == rest;
    HandedAt(q, i, last, stop, closes, dayOf);
    assert dayOf(q[i]) == day(m - a);
    TabulateDownCons(day, m - a, m - (a + 1));
  }

  /** Over such a whole queue the loop hands on `day(m), ..., day(0)` and processes every item. */
  lemma HandoffsAll<T>(q: seq<T>, m: nat, day: nat -> string, last: T,
                       stop: T -> bool, closes: T -> bool, dayOf: T -> string)
    requires Shaped(q, m, day, last, stop, closes, dayOf)
    ensures HandedBy(q, last, stop, closes, dayOf) == TabulateDown(day, m)
    ensures WrittenBy(q, last, stop, closes) == |q|
  {
    HandoffsOver(q, m, day, last, stop, closes, dayOf, 0);
    assert q[0..] == q;
  }
}
