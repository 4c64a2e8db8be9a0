/** `flatten(items)`: a depth-first walk over nested iterables that yields the
    leaves in order; strings and byte strings are iterable but are treated as
    single items. */
module Flatten {

  /** A value met by the walk: a number, a `str`, a `bytes` or a nested list. */
  datatype Item = Scalar(n: int) | Text(s: string) | Bytes(b: seq<bv8>) | Nested(items: seq<Item>)

  /** An item the walk yields as it is, without descending into it. */
  predicate IsAtom(x: Item)
  {
    !x.Nested?
  }

  function Flatten(items: seq<Item>): (r: seq<Item>)
    ensures forall x :: x in r ==> IsAtom(x)
    decreases items
  {
    if |items| == 0 then []
    else
      var head := match items[0]
        case Nested(sub) => Flatten(sub)
        case _ => [items[0]];
      head + Flatten(items[1..])
  }

  /** How many atoms lie anywhere inside the items. */
  function LeafCount(items: seq<Item>): nat
    decreases items
  {
    if |items| == 0 then 0
    else
      (match items[0]
        case Nested(sub) => LeafCount(sub)
        case _ => 1) + LeafCount(items[1..])
  }

  /** Every leaf is yielded: the walk loses nothing. */
  lemma {:induction false} FlattenYieldsEveryLeaf(items: seq<Item>)
    ensures |Flatten(items)| == LeafCount(items)
    decreases items
  {
    if |items| > 0 {
      if items[0].Nested? {
        FlattenYieldsEveryLeaf(items[0].items);
      }
      FlattenYieldsEveryLeaf(items[1..]);
    }
  }

  /** A list without nested lists (strings included) is yielded unchanged. */
  lemma {:induction false} FlattenOfAtoms(items: seq<Item>)
    requires forall x :: x in items ==> IsAtom(x)
    ensures Flatten(items) == items
  {
    if |items| > 0 {
      assert items[0] in items;
      FlattenOfAtoms(items[1..]);
    }
  }

  /** The walk over a concatenation is the concatenation of the walks. */
  lemma {:induction false} FlattenAppend(a: seq<Item>, b: seq<Item>)
    ensures Flatten(a + b) == Flatten(a) + Flatten(b)
    decreases |a|
  {
    if |a| > 0 {
      assert (a + b)[0] == a[0];
      assert (a + b)[1..] == a[1..] + b;
      FlattenAppend(a[1..], b);
      var head := match a[0]
        case Nested(sub) => Flatten(sub)
        case _ => [a[0]];
      assert Flatten(a) == head + Flatten(a[1..]);
      assert Flatten(a + b) == head + Flatten(a[1..] + b);
    } else {
      assert a + b == b;
    }
  }

  /** Flattening is idempotent. */
  lemma FlattenIdempotent(items: seq<Item>)
    ensures Flatten(Flatten(items)) == Flatten(items)
  {
    FlattenOfAtoms(Flatten(items));
  }

  /** Wrapping a list in another level of nesting does not change the walk. */
  lemma FlattenIgnoresNesting(items: seq<Item>)
    ensures Flatten([Nested(items)]) == Flatten(items)
  {
    assert [Nested(items)][1..] == [];
  }
}
