/**
 * Two folds over a sequence that the stream readers use: the pieces each
 * element contributes, one after the other, and the last value some element
 * carries.
 */
module Seqs {
  import opened Wrappers

  /** The pieces `f` gives each element of `xs`, in order. */
  function Collect<E, T>(xs: seq<E>, f: E -> seq<T>): seq<T>
    decreases |xs|
  {
    if xs == [] then [] else Collect(xs[..|xs| - 1], f) + f(xs[|xs| - 1])
  }

  /** Collecting over two parts is collecting over each, one after the other. */
  lemma {:induction false} CollectAppend<E, T>(a: seq<E>, b: seq<E>, f: E -> seq<T>)
    ensures Collect(a + b, f) == Collect(a, f) + Collect(b, f)
    decreases |b|
  {
    if b == [] {
      assert a + b == a;
    } else {
      assert (a + b)[..|a + b| - 1] == a + b[..|b| - 1];
      CollectAppend(a, b[..|b| - 1], f);
    }
  }

  lemma CollectSnoc<E, T>(xs: seq<E>, x: E, f: E -> seq<T>)
    ensures Collect(xs + [x], f) == Collect(xs, f) + f(x)
  {
    assert (xs + [x])[..|xs|] == xs;
  }

  /** `g` of each element of `xs`, in order. */
  function Map<E, T>(xs: seq<E>, g: E -> T): seq<T>
    decreases |xs|
  {
    if xs == [] then [] else Map(xs[..|xs| - 1], g) + [g(xs[|xs| - 1])]
  }

  /** Mapping keeps the length, and each place holds `g` of the element there. */
  lemma {:induction false} MapAt<E, T>(xs: seq<E>, g: E -> T)
    ensures |Map(xs, g)| == |xs|
    ensures forall i :: 0 <= i < |xs| ==> Map(xs, g)[i] == g(xs[i])
    decreases |xs|
  {
    if xs != [] {
      var n := |xs| - 1;
      MapAt(xs[..n], g);
      assert forall i :: 0 <= i < n ==> xs[..n][i] == xs[i];
    }
  }

  /** Every element of `xs` satisfies `p`. */
  predicate All<E>(xs: seq<E>, p: E -> bool)
  {
    forall k :: 0 <= k < |xs| ==> p(xs[k])
  }

  /** A prefix of elements that all satisfy `p` does too, and so does each element. */
  lemma AllPrefix<E>(xs: seq<E>, p: E -> bool, n: nat)
    requires All(xs, p) && n <= |xs|
    ensures All(xs[..n], p)
    ensures n < |xs| ==> p(xs[n])
  {
    forall k | 0 <= k < n
      ensures p(xs[..n][k])
    {
      assert xs[..n][k] == xs[k];
    }
  }

  /** Collecting over a mapped sequence, when each mapped element gives what `text` gives the original. */
  lemma {:induction false} CollectMap<E, L, T>(xs: seq<E>, line: E -> L, pieces: L -> seq<T>, text: E -> seq<T>)
    requires forall k :: 0 <= k < |xs| ==> pieces(line(xs[k])) == text(xs[k])
    ensures Collect(Map(xs, line), pieces) == Collect(xs, text)
    decreases |xs|
  {
    if xs != [] {
      var n := |xs| - 1;
      assert forall k :: 0 <= k < n ==> xs[..n][k] == xs[k];
      CollectMap(xs[..n], line, pieces, text);
      CollectSnoc(Map(xs[..n], line), line(xs[n]), pieces);
    }
  }

  /** Nothing is collected when no element gives anything. */
  lemma {:induction false} CollectNone<E, T>(xs: seq<E>, f: E -> seq<T>)
    requires forall k :: 0 <= k < |xs| ==> f(xs[k]) == []
    ensures Collect(xs, f) == []
    decreases |xs|
  {
    if xs != [] {
      var n := |xs| - 1;
      assert forall k :: 0 <= k < n ==> xs[..n][k] == xs[k];
      CollectNone(xs[..n], f);
    }
  }

  /** The value the last element that carries one carries, or `start` when none does. */
  function LastOf<E, T>(xs: seq<E>, f: E -> Option<T>, start: T): T
    decreases |xs|
  {
    if xs == [] then start
    else match f(xs[|xs| - 1])
      case Some(v) => v
      case None => LastOf(xs[..|xs| - 1], f, start)
  }

  /** The last value after two parts is the last of the second, starting from the first's. */
  lemma {:induction false} LastOfAppend<E, T>(a: seq<E>, b: seq<E>, f: E -> Option<T>, start: T)
    ensures LastOf(a + b, f, start) == LastOf(b, f, LastOf(a, f, start))
    decreases |b|
  {
    if b == [] {
      assert a + b == a;
    } else {
      assert (a + b)[..|a + b| - 1] == a + b[..|b| - 1];
      LastOfAppend(a, b[..|b| - 1], f, start);
    }
  }

  lemma LastOfSnoc<E, T>(xs: seq<E>, x: E, f: E -> Option<T>, start: T)
    ensures LastOf(xs + [x], f, start) == (match f(x) case Some(v) => v case None => LastOf(xs, f, start))
  {
    assert (xs + [x])[..|xs|] == xs;
  }

  /** The last value is `start` or one some element carries. */
  lemma {:induction false} LastOfCarried<E, T>(xs: seq<E>, f: E -> Option<T>, start: T)
    ensures LastOf(xs, f, start) == start
         || exists k :: 0 <= k < |xs| && f(xs[k]) == Some(LastOf(xs, f, start))
    decreases |xs|
  {
    if xs != [] {
      var n := |xs| - 1;
      match f(xs[n])
      case Some(v) =>
        assert f(xs[n]) == Some(LastOf(xs, f, start));
      case None =>
        LastOfCarried(xs[..n], f, start);
        if LastOf(xs, f, start) != start {
          var k :| 0 <= k < n && f(xs[..n][k]) == Some(LastOf(xs[..n], f, start));
          assert xs[..n][k] == xs[k];
        }
    }
  }

  /** When no mapped element carries a value, the last value is `start`. */
  lemma {:induction false} LastOfMapNone<E, L, T>(xs: seq<E>, line: E -> L, f: L -> Option<T>, start: T)
    requires forall k :: 0 <= k < |xs| ==> f(line(xs[k])).None?
    ensures LastOf(Map(xs, line), f, start) == start
    decreases |xs|
  {
    if xs != [] {
      var n := |xs| - 1;
      assert forall k :: 0 <= k < n ==> xs[..n][k] == xs[k];
      LastOfMapNone(xs[..n], line, f, start);
      LastOfSnoc(Map(xs[..n], line), line(xs[n]), f, start);
    }
  }

  /** The three parts of `a + b + c` are found again by slicing at their lengths. */
  lemma ThreeParts<T>(a: seq<T>, b: seq<T>, c: seq<T>)
    ensures (a + b + c)[..|a|] == a
    ensures (a + b + c)[|a|..] == b + c
    ensures (a + b + c)[|a| + |b|..] == c
  {
  }
}
