/** What the other modules share: optional values, outcomes of writes, facts about finite sets. */
module Collections {

  datatype Option<+T> = None | Some(value: T)

  /** How a write ends: acknowledged, applied although an error is reported, or not applied. */
  datatype Write = Applied | Lost | Failed

  /** An injective image of a finite set has as many elements as the set. */
  lemma {:induction false} InjectiveImageSize<A(!new), B(!new)>(xs: set<A>, f: A -> B, image: set<B>)
    requires forall x, y :: x in xs && y in xs && f(x) == f(y) ==> x == y
    requires forall x :: x in xs ==> f(x) in image
    requires forall b :: b in image ==> exists x :: x in xs && f(x) == b
    ensures |image| == |xs|
    decreases xs
  {
    if xs != {} {
      var a :| a in xs;
      assert f(a) in image;
      InjectiveImageSize(xs - {a}, f, image - {f(a)});
    } else {
      assert image == {};
    }
  }

  lemma PartitionSize<A>(whole: set<A>, a: set<A>, b: set<A>, c: set<A>)
    requires a !! b !! c && whole == a + b + c
    ensures |whole| == |a| + |b| + |c|
  {
  }

  /** A set all of whose elements are equal has at most one of them. */
  lemma AtMostOne<A(!new)>(xs: set<A>)
    requires forall x, y :: x in xs && y in xs ==> x == y
    ensures |xs| <= 1
  {
    if xs != {} {
      var a :| a in xs;
      assert xs == {a};
    }
  }

  /** There is always another number. */
  lemma {:induction false} UpperBound(xs: set<nat>) returns (bound: nat)
    ensures forall x :: x in xs ==> x < bound
    decreases xs
  {
    if xs == {} {
      bound := 0;
    } else {
      var x :| x in xs;
      var rest := UpperBound(xs - {x});
      bound := if rest <= x then x + 1 else rest;
      assert forall y :: y in xs ==> y == x || y in xs - {x};
    }
  }
}
