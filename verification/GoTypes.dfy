/** The few Go notions the other modules share: an optional value and a slice that may be nil. */
module GoTypes {

  datatype Option<+T> = None | Some(value: T)

  /** A Go slice. A nil slice and an empty one hold the same elements but answer `== nil` differently. */
  datatype Slice<+T> = Nil | Of(elems: seq<T>) {

    function Elems(): seq<T> {
      match this
      case Nil => []
      case Of(s) => s
    }
  }

  /** `append(s, xs...)`: appending nothing to a nil slice leaves it nil. */
  function Append<T>(s: Slice<T>, xs: seq<T>): Slice<T> {
    if xs == [] then s else Of(s.Elems() + xs)
  }

  /** The last element of a sequence and the rest of it; the models recurse from the right, as their loops do. */
  function Last<T>(xs: seq<T>): T
    requires |xs| > 0
  {
    xs[|xs| - 1]
  }

  function Init<T>(xs: seq<T>): seq<T>
    requires |xs| > 0
  {
    xs[..|xs| - 1]
  }

  lemma Snoc<T>(xs: seq<T>, i: nat)
    requires i < |xs|
    ensures Init(xs[..i + 1]) == xs[..i] && Last(xs[..i + 1]) == xs[i]
    ensures xs[..i + 1] == xs[..i] + [xs[i]]
  {
  }

  lemma InitLast<T>(xs: seq<T>)
    requires xs != []
    ensures Init(xs) + [Last(xs)] == xs
    ensures forall x :: x in xs <==> x in Init(xs) || x == Last(xs)
  {
    assert Init(xs) + [Last(xs)] == xs;
    assert forall x :: x in Init(xs) + [Last(xs)] <==> x in Init(xs) || x == Last(xs);
  }
}
