/** Small sequence helpers shared by the model: the element set of a sequence
    and a flat-map that concatenates the images of the elements in order
    (JavaScript's `Array.prototype.flatMap`). */
module Seqs {

  /** The set of elements of a sequence. */
  function Elems<T(!new)>(s: seq<T>): (r: set<T>)
    ensures forall x :: x in r <==> x in s
  {
    set x | x in s
  }

  lemma ElemsAppend<T(!new)>(a: seq<T>, b: seq<T>)
    ensures Elems(a + b) == Elems(a) + Elems(b)
  {
  }

  /** Concatenation of f(xs[0]), f(xs[1]), ... in order. */
  function FlatMap<A, B>(xs: seq<A>, f: A -> seq<B>): seq<B>
    decreases |xs|
  {
    if xs == [] then [] else FlatMap(xs[..|xs| - 1], f) + f(xs[|xs| - 1])
  }

  /** FlatMap distributes over concatenation. */
  lemma {:induction false} FlatMapAppend<A, B>(a: seq<A>, b: seq<A>, f: A -> seq<B>)
    ensures FlatMap(a + b, f) == FlatMap(a, f) + FlatMap(b, f)
    decreases |b|
  {
    if b == [] {
      assert a + b == a;
    } else {
      var b' := b[..|b| - 1];
      assert (a + b)[..|a + b| - 1] == a + b';
      assert (a + b)[|a + b| - 1] == b[|b| - 1];
      FlatMapAppend(a, b', f);
    }
  }

  /** Appending one element appends its image. */
  lemma FlatMapSnoc<A, B>(a: seq<A>, x: A, f: A -> seq<B>)
    ensures FlatMap(a + [x], f) == FlatMap(a, f) + f(x)
  {
    assert (a + [x])[..|a + [x]| - 1] == a;
  }

  /** Growing a window `s[..j]` appended to `a` by one element. */
  lemma PrefixSnoc<T>(a: seq<T>, s: seq<T>, j: nat)
    requires j < |s|
    ensures a + s[..j + 1] == (a + s[..j]) + [s[j]]
  {
    assert s[..j + 1] == s[..j] + [s[j]];
  }
}
