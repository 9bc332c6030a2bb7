/** Small shared vocabulary: optional values, the outcome of a call into a
    foreign service, and prefix-taking on sequences. */
module Common {

  /** Python's `None` versus a present value. */
  datatype Option<+T> = None | Some(value: T)

  /** What a call into a service outside the model produced: the text it
      returned, or the message of the exception it raised. The language
      model, the speech recogniser and the domain predictor all reach the
      model through this type. */
  datatype Reply = Ok(text: string) | Raised(message: string)

  function Min(a: int, b: int): int
  {
    if a <= b then a else b
  }

  /** Python's `xs[:n]` for a non-negative `n`. */
  function Take<T>(xs: seq<T>, n: nat): (r: seq<T>)
    ensures |r| == Min(n, |xs|)
    ensures r == xs[..|r|]
  {
    if n <= |xs| then xs[..n] else xs
  }

  /** The concatenation of `f(x)` over `xs`, in order: a list
      comprehension whose body yields zero or more items per element. */
  function FlatMap<A, B>(f: A -> seq<B>, xs: seq<A>): seq<B>
  {
    if xs == [] then [] else f(xs[0]) + FlatMap(f, xs[1..])
  }

  lemma FlatMapCons<A, B>(f: A -> seq<B>, xs: seq<A>)
    requires xs != []
    ensures FlatMap(f, xs) == f(xs[0]) + FlatMap(f, xs[1..])
  {
  }

  lemma {:induction false} FlatMapAppend<A, B>(f: A -> seq<B>, xs: seq<A>, ys: seq<A>)
    ensures FlatMap(f, xs + ys) == FlatMap(f, xs) + FlatMap(f, ys)
  {
    if xs == [] {
      assert xs + ys == ys;
    } else {
      var zs := xs + ys;
      assert zs[0] == xs[0] && zs[1..] == xs[1..] + ys;
      assert FlatMap(f, zs[1..]) == FlatMap(f, xs[1..]) + FlatMap(f, ys) by {
        FlatMapAppend(f, xs[1..], ys);
      }
      assert FlatMap(f, zs) == f(xs[0]) + FlatMap(f, zs[1..]);
      assert FlatMap(f, xs) == f(xs[0]) + FlatMap(f, xs[1..]);
    }
  }

  /** When each element yields exactly one item, the concatenation is the
      sequence of those items. */
  lemma {:induction false} FlatMapSingletons<A, B>(f: A -> seq<B>, xs: seq<A>, ys: seq<B>)
    requires |xs| == |ys|
    requires forall k :: 0 <= k < |xs| ==> f(xs[k]) == [ys[k]]
    ensures FlatMap(f, xs) == ys
  {
    if xs != [] {
      assert f(xs[0]) == [ys[0]];
      FlatMapSingletons(f, xs[1..], ys[1..]);
      assert [ys[0]] + ys[1..] == ys;
    }
  }
}
