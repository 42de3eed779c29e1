/** An optional value: Rust's `Option`, and the "value or exception" of the C++ number parsers. */
module Wrappers {
  datatype Option<+T> = None | Some(value: T) {
    predicate IsFailure() { None? }

    function PropagateFailure<U>(): Option<U>
      requires None?
    {
      None
    }

    function Extract(): T
      requires Some?
    {
      value
    }

    function GetOr(default: T): T {
      match this
      case Some(v) => v
      case None => default
    }
  }
}

module Numbers {
  function Min(a: int, b: int): int { if a <= b then a else b }

  function Max(a: int, b: int): int { if a <= b then b else a }
}

/** Weighted sums over a sequence, and how they react to the two ways a sequence changes here. */
module Summation {
  function Sum<T>(weight: T -> int, items: seq<T>): int {
    if items == [] then 0 else Sum(weight, items[..|items| - 1]) + weight(items[|items| - 1])
  }

  lemma SumAppend<T>(weight: T -> int, items: seq<T>, x: T)
    ensures Sum(weight, items + [x]) == Sum(weight, items) + weight(x)
  {
    assert (items + [x])[..|items|] == items;
  }

  lemma {:induction false} SumUpdate<T>(weight: T -> int, items: seq<T>, i: nat, x: T)
    requires i < |items|
    ensures Sum(weight, items[i := x]) == Sum(weight, items) - weight(items[i]) + weight(x)
  {
    var last := |items| - 1;
    if i == last {
      assert items[i := x][..last] == items[..last];
    } else {
      assert items[i := x][..last] == items[..last][i := x];
      SumUpdate(weight, items[..last], i, x);
    }
  }

  lemma {:induction false} SumBounds<T>(weight: T -> int, other: T -> int, items: seq<T>)
    requires forall i | 0 <= i < |items| :: weight(items[i]) <= other(items[i])
    ensures Sum(weight, items) <= Sum(other, items)
  {
    if items != [] {
      SumBounds(weight, other, items[..|items| - 1]);
    }
  }

  lemma {:induction false} SumZero<T>(weight: T -> int, items: seq<T>)
    requires forall i | 0 <= i < |items| :: weight(items[i]) == 0
    ensures Sum(weight, items) == 0
  {
    if items != [] {
      SumZero(weight, items[..|items| - 1]);
    }
  }

  lemma {:induction false} SumNonNegative<T>(weight: T -> int, items: seq<T>)
    requires forall i | 0 <= i < |items| :: 0 <= weight(items[i])
    ensures 0 <= Sum(weight, items)
    ensures forall i | 0 <= i < |items| :: weight(items[i]) <= Sum(weight, items)
  {
    if items != [] {
      SumNonNegative(weight, items[..|items| - 1]);
      assert forall i | 0 <= i < |items| - 1 :: items[i] == items[..|items| - 1][i];
    }
  }
}
