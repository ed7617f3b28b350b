/** Option, Result and Stream: the optional, fallible and possibly cut-short values the model passes around. */
module Wrappers {

  datatype Option<+T> = None | Some(value: T) {
    function GetOr(default: T): T {
      match this
      case Some(v) => v
      case None => default
    }
  }

  datatype Result<+R, +E> = Ok(value: R) | Err(error: E)

  /**
   * What a Python generator delivers to its consumer: the items it yielded,
   * and whether it then raised an exception instead of finishing normally.
   */
  datatype Stream<+T> = Stream(items: seq<T>, aborted: bool)

  /** Prefixing an item to a stream keeps the way it ends. */
  function Cons<T>(x: T, s: Stream<T>): (r: Stream<T>)
    ensures r.items == [x] + s.items && r.aborted == s.aborted
  {
    Stream([x] + s.items, s.aborted)
  }

  /** `f` applied to every element, in order. */
  function Map<A, B>(f: A -> B, xs: seq<A>): (r: seq<B>)
    ensures |r| == |xs|
    ensures forall i :: 0 <= i < |xs| ==> r[i] == f(xs[i])
  {
    seq(|xs|, i requires 0 <= i < |xs| => f(xs[i]))
  }

  lemma MapAppend<A, B>(f: A -> B, a: seq<A>, b: seq<A>)
    ensures Map(f, a + b) == Map(f, a) + Map(f, b)
  {
  }

  /** The values of the `Some` entries, in order: a filter-map's output. */
  function Somes<T>(xs: seq<Option<T>>): (r: seq<T>)
    ensures |r| <= |xs|
  {
    if xs == [] then []
    else if xs[0].Some? then [xs[0].value] + Somes(xs[1..])
    else Somes(xs[1..])
  }

  /** Every value kept is the value of some entry. */
  lemma {:induction false} SomesMember<T>(xs: seq<Option<T>>, x: T)
    requires x in Somes(xs)
    ensures Some(x) in xs
  {
    if xs[0] != Some(x) {
      SomesMember(xs[1..], x);
    }
  }

  lemma {:induction false} SomesAppend<T>(a: seq<Option<T>>, b: seq<Option<T>>)
    ensures Somes(a + b) == Somes(a) + Somes(b)
  {
    if a == [] {
      assert a + b == b;
    } else {
      assert (a + b)[0] == a[0];
      assert (a + b)[1..] == a[1..] + b;
      SomesAppend(a[1..], b);
    }
  }

  /** Entry j, when it is a value, is the one after the values of the entries before it. */
  lemma SomesAt<T>(xs: seq<Option<T>>, j: nat)
    requires j < |xs| && xs[j].Some?
    ensures |Somes(xs[..j])| < |Somes(xs)|
    ensures Somes(xs)[|Somes(xs[..j])|] == xs[j].value
  {
    assert xs == xs[..j] + xs[j..];
    SomesAppend(xs[..j], xs[j..]);
    assert xs[j..][0] == xs[j];
  }

  /** Two sequences with their values at the same places have equally many values. */
  lemma {:induction false} SomesSameShape<T, U>(xs: seq<Option<T>>, ys: seq<Option<U>>)
    requires |xs| == |ys|
    requires forall i :: 0 <= i < |xs| ==> (xs[i].Some? <==> ys[i].Some?)
    ensures |Somes(xs)| == |Somes(ys)|
  {
    if xs != [] {
      SomesSameShape(xs[1..], ys[1..]);
    }
  }
}
