/** Small facts about sequences, stated generically so that the solver does
    not look inside the elements (strings, rows) when it uses them. */
module Seqs {

  lemma TakeSnoc<T>(s: seq<T>, i: nat)
    requires i < |s|
    ensures s[..i + 1] == s[..i] + [s[i]]
  {
  }

  lemma DropCons<T>(s: seq<T>, i: nat)
    requires i < |s|
    ensures s[i..] == [s[i]] + s[i + 1..]
  {
  }

  lemma TakeDrop<T>(s: seq<T>, i: nat)
    requires i <= |s|
    ensures s[..i] + s[i..] == s
  {
  }

  lemma DropDrop<T>(s: seq<T>, i: nat)
    requires i < |s|
    ensures s[i..][1..] == s[i + 1..] && s[i..][0] == s[i]
  {
  }

  lemma AppendAssoc<T>(a: seq<T>, b: seq<T>, c: seq<T>)
    ensures (a + b) + c == a + (b + c)
  {
  }

  lemma SnocTail<T>(s: seq<T>, x: T)
    requires s != []
    ensures (s + [x])[1..] == s[1..] + [x] && (s + [x])[0] == s[0]
  {
  }

  /** `[f(m), f(m - 1), ..., f(0)]`. */
  function TabulateDown<T>(f: nat -> T, m: nat): (r: seq<T>)
    ensures |r| == m + 1
  {
    if m == 0 then [f(0)] else [f(m)] + TabulateDown(f, m - 1)
  }

  lemma TabulateDownCons<T>(f: nat -> T, m: nat, m': nat)
    requires m == m' + 1
    ensures TabulateDown(f, m) == [f(m)] + TabulateDown(f, m')
  {
  }

  lemma {:induction false} TabulateDownIndex<T>(f: nat -> T, m: nat, j: nat)
    requires j <= m
    ensures TabulateDown(f, m)[j] == f(m - j)
    decreases j
  {
    if j > 0 {
      TabulateDownIndex(f, m - 1, j - 1);
    }
  }

  lemma TabulateDownAt<T>(f: nat -> T, m: nat, j: nat, k: nat)
    requires j + k == m
    ensures TabulateDown(f, m)[j] == f(k)
  {
    TabulateDownIndex(f, m, j);
  }

  /** An `f` that is injective on `0..m` gives a list without repetitions. */
  lemma TabulateDownDistinct<T>(f: nat -> T, m: nat, i: nat, j: nat)
    requires forall a: nat, b: nat :: a <= m && b <= m && f(a) == f(b) ==> a == b
    requires i <= m && j <= m && TabulateDown(f, m)[i] == TabulateDown(f, m)[j]
    ensures i == j
  {
    TabulateDownIndex(f, m, i);
    TabulateDownIndex(f, m, j);
  }

  /** `[f(x) for x in s]`. */
  function Map<A, B>(f: A -> B, s: seq<A>): (r: seq<B>)
    ensures |r| == |s| && forall k :: 0 <= k < |s| ==> r[k] == f(s[k])
  {
    seq(|s|, k requires 0 <= k < |s| => f(s[k]))
  }

  lemma MapSnoc<A, B>(f: A -> B, s: seq<A>, x: A)
    ensures Map(f, s + [x]) == Map(f, s) + [f(x)]
  {
    var l, r := Map(f, s + [x]), Map(f, s) + [f(x)];
    forall k | 0 <= k < |l|
      ensures l[k] == r[k]
    {
      if k < |s| {
        assert (s + [x])[k] == s[k];
      }
    }
  }

  /** `list.reverse()`. */
  function Reversed<T>(s: seq<T>): (r: seq<T>)
    ensures |r| == |s| && forall k :: 0 <= k < |s| ==> r[k] == s[|s| - 1 - k]
  {
    seq(|s|, k requires 0 <= k < |s| => s[|s| - 1 - k])
  }

  lemma MapReversed<A, B>(f: A -> B, s: seq<A>)
    ensures Reversed(Map(f, s)) == Map(f, Reversed(s))
  {
    var l, r := Reversed(Map(f, s)), Map(f, Reversed(s));
    forall k | 0 <= k < |l|
      ensures l[k] == r[k]
    {
      assert Reversed(s)[k] == s[|s| - 1 - k];
    }
  }
}
