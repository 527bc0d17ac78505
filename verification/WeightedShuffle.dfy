/**
 * The weighted shuffle of upstream targets: repeatedly pick one item of the pool with a chance in
 * proportion to its weight.  `draw(k)` is the k-th random number, at least 0 and below 1; weights
 * are reals, so rounding of floating-point sums is not modelled.
 */
module WeightedShuffle {

  /** The sum of the first `k` weights. */
  function Cum<T>(pool: seq<T>, weight: T -> real, k: nat): real
    requires k <= |pool|
  {
    if k == 0 then 0.0 else Cum(pool, weight, k - 1) + weight(pool[k - 1])
  }

  /** The first index from `i` on whose cumulated weight exceeds `rand`; the last index if there is none. */
  function First<T>(pool: seq<T>, weight: T -> real, rand: real, i: nat): (picked: nat)
    requires i <= |pool| && pool != []
    ensures picked < |pool|
    decreases |pool| - i
  {
    if i == |pool| then |pool| - 1
    else if rand < Cum(pool, weight, i + 1) then i
    else First(pool, weight, rand, i + 1)
  }

  /** A source of random points: the k-th one on the line from 0 to a given length. */
  type Points = (nat, real) -> real

  /** Random numbers scaled to the length of the line. */
  function Scaled(draw: nat -> real): Points {
    (k: nat, length: real) => draw(k) * length
  }

  function Without<T>(pool: seq<T>, i: nat): seq<T>
    requires i < |pool|
  {
    pool[..i] + pool[i + 1..]
  }

  /** The order in which the pool is emptied, using the points from number `k` on. */
  function Shuffled<T>(pool: seq<T>, weight: T -> real, points: Points, k: nat): seq<T>
    decreases |pool|
  {
    if pool == [] then []
    else
      var i := First(pool, weight, points(k, Cum(pool, weight, |pool|)), 0);
      [pool[i]] + Shuffled(Without(pool, i), weight, points, k + 1)
  }

  function Positive<T>(items: seq<T>, weight: T -> real): seq<T> {
    if items == [] then []
    else (if weight(items[0]) > 0.0 then [items[0]] else []) + Positive(items[1..], weight)
  }

  lemma PositiveStep<T>(items: seq<T>, weight: T -> real, i: nat)
    requires i < |items|
    ensures Positive(items[i..], weight) ==
            (if weight(items[i]) > 0.0 then [items[i]] else []) + Positive(items[i + 1..], weight)
  {
  }

  method Filter<T>(items: seq<T>, weight: T -> real) returns (pool: seq<T>)
    ensures pool == Positive(items, weight)
  {
    pool := [];
    ghost var all := Positive(items, weight);
    for i := 0 to |items|
      invariant pool + Positive(items[i..], weight) == all
    {
      PositiveStep(items, weight, i);
      ghost var kept := if weight(items[i]) > 0.0 then [items[i]] else [];
      assert pool + (kept + Positive(items[i + 1..], weight)) == pool + kept + Positive(items[i + 1..], weight);
      assert pool + [] == pool;
      if weight(items[i]) > 0.0 {
        pool := pool + [items[i]];
      }
    }
  }

  /** One pick: adds up the total, then walks along the cumulated weights to the random point. */
  method Pick<T>(pool: seq<T>, weight: T -> real, points: Points, k: nat) returns (pickedIdx: nat)
    requires pool != []
    ensures pickedIdx < |pool| && pickedIdx == First(pool, weight, points(k, Cum(pool, weight, |pool|)), 0)
  {
    var totalWeight := 0.0;
    for i := 0 to |pool|
      invariant totalWeight == Cum(pool, weight, i)
    {
      totalWeight := totalWeight + weight(pool[i]);
    }
    var rand := points(k, totalWeight);
    var cumulative := 0.0;
    pickedIdx := |pool| - 1;
    for i := 0 to |pool|
      invariant cumulative == Cum(pool, weight, i)
      invariant pickedIdx == |pool| - 1
      invariant First(pool, weight, rand, i) == First(pool, weight, rand, 0)
    {
      cumulative := cumulative + weight(pool[i]);
      assert cumulative == Cum(pool, weight, i + 1);
      if rand < cumulative {
        return i;
      }
    }
  }

  /**
   * Without a positive weight the items come back as they are.  Otherwise the k-th item returned is the
   * one of the pool that is left in whose piece of the line the k-th random number, times the length of
   * the line, falls.
   */
  method WeightedShuffle<T>(items: seq<T>, weight: T -> real, draw: nat -> real) returns (result: seq<T>)
    ensures result ==
            if Positive(items, weight) == [] then items else Shuffled(Positive(items, weight), weight, Scaled(draw), 0)
    ensures Positive(items, weight) != [] && AreDraws(draw) ==>
              DrawnInTurn(result, Positive(items, weight), weight, draw, 0)
  {
    ShuffleIsDrawn(items, weight, draw);
    var pool := Filter(items, weight);
    if pool == [] {
      return items;
    }
    result := [];
    ghost var all := pool;
    while |pool| > 0
      invariant result + Shuffled(pool, weight, Scaled(draw), |result|) == Shuffled(all, weight, Scaled(draw), 0)
      decreases |pool|
    {
      var pickedIdx := Pick(pool, weight, Scaled(draw), |result|);
      ghost var rest := Shuffled(Without(pool, pickedIdx), weight, Scaled(draw), |result| + 1);
      assert result + ([pool[pickedIdx]] + rest) == (result + [pool[pickedIdx]]) + rest;
      result := result + [pool[pickedIdx]];
      pool := Without(pool, pickedIdx);
    }
  }

  // ---------------------------------------------------------------------------------------------
  // What the order is: each place goes to the item in whose piece of the line the draw falls.
  // ---------------------------------------------------------------------------------------------

  ghost predicate AreDraws(draw: nat -> real) {
    forall k: nat :: 0.0 <= draw(k) < 1.0
  }

  /** The piece of the line that belongs to an item starts where those of the items before it end. */
  predicate InItsPiece<T>(pool: seq<T>, weight: T -> real, point: real, i: nat)
    requires i < |pool|
  {
    Cum(pool, weight, i) <= point < Cum(pool, weight, i) + weight(pool[i])
  }

  /** The order is drawn from the pool, item after item, with the draws from number `k` on. */
  ghost predicate DrawnInTurn<T>(order: seq<T>, pool: seq<T>, weight: T -> real, draw: nat -> real, k: nat)
    decreases |pool|
  {
    if pool == [] then order == []
    else
      order != [] &&
      exists i: nat :: i < |pool|
        && InItsPiece(pool, weight, draw(k) * Cum(pool, weight, |pool|), i)
        && order[0] == pool[i]
        && DrawnInTurn(order[1..], Without(pool, i), weight, draw, k + 1)
  }

  lemma WithoutStaysPositive<T>(pool: seq<T>, weight: T -> real, i: nat)
    requires AllPositive(pool, weight) && i < |pool|
    ensures AllPositive(Without(pool, i), weight)
  {
  }

  lemma {:induction false} PositiveIsPositive<T>(items: seq<T>, weight: T -> real)
    ensures AllPositive(Positive(items, weight), weight)
  {
    if items != [] {
      PositiveIsPositive(items[1..], weight);
    }
  }

  lemma PickIsInItsPiece<T>(pool: seq<T>, weight: T -> real, draw: nat -> real, k: nat)
    requires AllPositive(pool, weight) && pool != [] && 0.0 <= draw(k) < 1.0
    ensures
      var total := Cum(pool, weight, |pool|);
      InItsPiece(pool, weight, draw(k) * total, First(pool, weight, Scaled(draw)(k, total), 0))
  {
    var total := Cum(pool, weight, |pool|);
    DrawIsOnTheLine(pool, weight, draw, k);
    ScaledIs(draw, k, total);
    PickIsProportional(pool, weight, draw(k) * total, First(pool, weight, draw(k) * total, 0));
  }

  lemma TakeTurn<T>(rest: seq<T>, pool: seq<T>, weight: T -> real, draw: nat -> real, k: nat, i: nat)
    requires i < |pool| && InItsPiece(pool, weight, draw(k) * Cum(pool, weight, |pool|), i)
    requires DrawnInTurn(rest, Without(pool, i), weight, draw, k + 1)
    ensures DrawnInTurn([pool[i]] + rest, pool, weight, draw, k)
  {
    assert ([pool[i]] + rest)[0] == pool[i] && ([pool[i]] + rest)[1..] == rest;
  }

  lemma {:induction false} ShuffledIsDrawnInTurn<T>(pool: seq<T>, weight: T -> real, draw: nat -> real, k: nat)
    requires AllPositive(pool, weight) && AreDraws(draw)
    ensures DrawnInTurn(Shuffled(pool, weight, Scaled(draw), k), pool, weight, draw, k)
    decreases |pool|
  {
    if pool != [] {
      var total := Cum(pool, weight, |pool|);
      var i := First(pool, weight, Scaled(draw)(k, total), 0);
      PickIsInItsPiece(pool, weight, draw, k);
      WithoutStaysPositive(pool, weight, i);
      ShuffledIsDrawnInTurn(Without(pool, i), weight, draw, k + 1);
      TakeTurn(Shuffled(Without(pool, i), weight, Scaled(draw), k + 1), pool, weight, draw, k, i);
    }
  }

  lemma PiecesAreApart<T>(pool: seq<T>, weight: T -> real, point: real, i: nat, j: nat)
    requires AllPositive(pool, weight) && i < |pool| && j < |pool|
    requires InItsPiece(pool, weight, point, i) && InItsPiece(pool, weight, point, j)
    ensures i == j
  {
    if i < j {
      CumGrows(pool, weight, i + 1, j);
    } else if j < i {
      CumGrows(pool, weight, j + 1, i);
    }
  }

  /** The draws decide the whole order. */
  lemma {:induction false} DrawsDecideTheOrder<T>(
      order: seq<T>, other: seq<T>, pool: seq<T>, weight: T -> real, draw: nat -> real, k: nat)
    requires AllPositive(pool, weight)
    requires DrawnInTurn(order, pool, weight, draw, k) && DrawnInTurn(other, pool, weight, draw, k)
    ensures order == other
    decreases |pool|
  {
    if pool != [] {
      var point := draw(k) * Cum(pool, weight, |pool|);
      var i: nat :| i < |pool| && InItsPiece(pool, weight, point, i) && order[0] == pool[i]
                    && DrawnInTurn(order[1..], Without(pool, i), weight, draw, k + 1);
      var j: nat :| j < |pool| && InItsPiece(pool, weight, point, j) && other[0] == pool[j]
                    && DrawnInTurn(other[1..], Without(pool, j), weight, draw, k + 1);
      PiecesAreApart(pool, weight, point, i, j);
      WithoutStaysPositive(pool, weight, i);
      DrawsDecideTheOrder(order[1..], other[1..], Without(pool, i), weight, draw, k + 1);
      assert order == [order[0]] + order[1..] && other == [other[0]] + other[1..];
    }
  }

  lemma ShuffleIsDrawn<T>(items: seq<T>, weight: T -> real, draw: nat -> real)
    ensures AreDraws(draw) ==>
              var pool := Positive(items, weight);
              DrawnInTurn(Shuffled(pool, weight, Scaled(draw), 0), pool, weight, draw, 0)
  {
    if AreDraws(draw) {
      PositiveIsPositive(items, weight);
      ShuffledIsDrawnInTurn(Positive(items, weight), weight, draw, 0);
    }
  }

  // ---------------------------------------------------------------------------------------------
  // A permutation of the positive-weight items.
  // ---------------------------------------------------------------------------------------------

  lemma {:induction false} ShuffledIsPermutation<T>(pool: seq<T>, weight: T -> real, points: Points, k: nat)
    ensures multiset(Shuffled(pool, weight, points, k)) == multiset(pool)
    decreases |pool|
  {
    if pool != [] {
      var i := First(pool, weight, points(k, Cum(pool, weight, |pool|)), 0);
      ShuffledIsPermutation(Without(pool, i), weight, points, k + 1);
      OneTaken(pool, i);
    }
  }

  lemma OneTaken<T>(pool: seq<T>, i: nat)
    requires i < |pool|
    ensures multiset(pool) == multiset([pool[i]]) + multiset(Without(pool, i))
  {
    assert pool == pool[..i] + [pool[i]] + pool[i + 1..];
  }

  /** The pool keeps every item of positive weight as often as it occurs, and no other item. */
  lemma {:induction false} PositiveKeeps<T>(items: seq<T>, weight: T -> real, x: T)
    ensures multiset(Positive(items, weight))[x] == if weight(x) > 0.0 then multiset(items)[x] else 0
  {
    if items != [] {
      PositiveKeeps(items[1..], weight, x);
      assert items == [items[0]] + items[1..];
    }
  }

  lemma {:induction false} PositiveAppend<T>(items: seq<T>, more: seq<T>, weight: T -> real)
    ensures Positive(items + more, weight) == Positive(items, weight) + Positive(more, weight)
  {
    if items == [] {
      assert items + more == more;
    } else {
      var first := if weight(items[0]) > 0.0 then [items[0]] else [];
      assert (items + more)[0] == items[0] && (items + more)[1..] == items[1..] + more;
      PositiveAppend(items[1..], more, weight);
      assert Positive(items + more, weight) == first + (Positive(items[1..], weight) + Positive(more, weight));
    }
  }

  /** The pool keeps the items of positive weight in their order. */
  lemma PoolKeepsOrder<T>(items: seq<T>, x: T, more: seq<T>, weight: T -> real)
    ensures Positive(items + [x] + more, weight) ==
            Positive(items, weight) + (if weight(x) > 0.0 then [x] else []) + Positive(more, weight)
  {
    PositiveAppend(items + [x], more, weight);
    PositiveAppend(items, [x], weight);
    assert [x][1..] == [];
  }

  /**
   * What the shuffle returns holds each item of positive weight as often as the input; all of it if
   * none is positive.
   */
  lemma ShuffleKeeps<T>(items: seq<T>, weight: T -> real, points: Points, x: T)
    ensures multiset(Shuffled(Positive(items, weight), weight, points, 0))[x] ==
            if weight(x) > 0.0 then multiset(items)[x] else 0
    ensures Positive(items, weight) == [] <==> forall i :: 0 <= i < |items| ==> weight(items[i]) <= 0.0
  {
    ShuffledIsPermutation(Positive(items, weight), weight, points, 0);
    PositiveKeeps(items, weight, x);
    NonePositive(items, weight);
  }

  lemma {:induction false} NonePositive<T>(items: seq<T>, weight: T -> real)
    ensures Positive(items, weight) == [] <==> forall i :: 0 <= i < |items| ==> weight(items[i]) <= 0.0
  {
    if items != [] {
      NonePositive(items[1..], weight);
      assert items == [items[0]] + items[1..];
    }
  }

  // ---------------------------------------------------------------------------------------------
  // Each pick is in proportion to the weights.
  // ---------------------------------------------------------------------------------------------

  ghost predicate AllPositive<T>(pool: seq<T>, weight: T -> real) {
    forall i :: 0 <= i < |pool| ==> weight(pool[i]) > 0.0
  }

  lemma {:induction false} CumGrows<T>(pool: seq<T>, weight: T -> real, i: nat, j: nat)
    requires AllPositive(pool, weight) && i <= j <= |pool|
    ensures Cum(pool, weight, i) <= Cum(pool, weight, j)
    ensures i < j ==> Cum(pool, weight, i) < Cum(pool, weight, j)
    decreases j
  {
    if i < j {
      CumGrows(pool, weight, i, j - 1);
    }
  }

  lemma {:induction false} FirstIsBetween<T>(pool: seq<T>, weight: T -> real, rand: real, i: nat)
    requires AllPositive(pool, weight) && i < |pool| && Cum(pool, weight, i) <= rand < Cum(pool, weight, |pool|)
    ensures var picked := First(pool, weight, rand, i);
            Cum(pool, weight, picked) <= rand < Cum(pool, weight, picked + 1)
    decreases |pool| - i
  {
    if rand >= Cum(pool, weight, i + 1) {
      FirstIsBetween(pool, weight, rand, i + 1);
    }
  }

  /**
   * An item is picked exactly when the random point falls into its own piece of the line from 0 to
   * the total weight; the piece is as long as the item's weight.
   */
  lemma PickIsProportional<T>(pool: seq<T>, weight: T -> real, rand: real, i: nat)
    requires AllPositive(pool, weight) && i < |pool| && 0.0 <= rand < Cum(pool, weight, |pool|)
    ensures First(pool, weight, rand, 0) == i <==> Cum(pool, weight, i) <= rand < Cum(pool, weight, i + 1)
    ensures Cum(pool, weight, i + 1) - Cum(pool, weight, i) == weight(pool[i])
  {
    FirstIsBetween(pool, weight, rand, 0);
    var picked := First(pool, weight, rand, 0);
    if picked < i {
      CumGrows(pool, weight, picked + 1, i);
    } else if i < picked {
      CumGrows(pool, weight, i + 1, picked);
    }
  }

  /** Scaling a draw by the total weight stays on the line, so the fallback index is never needed. */
  lemma DrawIsOnTheLine<T>(pool: seq<T>, weight: T -> real, draw: nat -> real, k: nat)
    requires AllPositive(pool, weight) && pool != [] && 0.0 <= draw(k) < 1.0
    ensures 0.0 <= Scaled(draw)(k, Cum(pool, weight, |pool|)) < Cum(pool, weight, |pool|)
  {
    CumGrows(pool, weight, 0, |pool|);
    ScaledFits(draw, k, Cum(pool, weight, |pool|));
  }

  lemma ScaledFits(draw: nat -> real, k: nat, length: real)
    requires 0.0 <= draw(k) < 1.0 && length > 0.0
    ensures 0.0 <= Scaled(draw)(k, length) < length
  {
    ScaledIs(draw, k, length);
    ScaleDown(draw(k), length);
  }

  lemma ScaledIs(draw: nat -> real, k: nat, length: real)
    ensures Scaled(draw)(k, length) == draw(k) * length
  {
  }

  lemma ScaleDown(d: real, length: real)
    requires 0.0 <= d < 1.0 && length > 0.0
    ensures 0.0 <= d * length < length
  {
  }

  function IntCum<T>(pool: seq<T>, w: T -> nat, k: nat): nat
    requires k <= |pool|
  {
    if k == 0 then 0 else IntCum(pool, w, k - 1) + w(pool[k - 1])
  }

  ghost predicate IntegerWeights<T(!new)>(weight: T -> real, w: T -> nat) {
    forall x :: weight(x) == w(x) as real
  }

  lemma {:induction false} CumIsInteger<T(!new)>(pool: seq<T>, weight: T -> real, w: T -> nat, k: nat)
    requires IntegerWeights(weight, w) && k <= |pool|
    ensures Cum(pool, weight, k) == IntCum(pool, w, k) as real
  {
    if k > 0 {
      CumIsInteger(pool, weight, w, k - 1);
    }
  }

  lemma WholePart(n: nat, r: real)
    ensures n as real <= r <==> n <= r.Floor
    ensures r.Floor as real <= r
  {
  }

  /** With integer weights only the whole part of the random point matters. */
  lemma WholePartDecides<T(!new)>(pool: seq<T>, weight: T -> real, w: T -> nat, rand: real)
    requires IntegerWeights(weight, w) && AllPositive(pool, weight) && pool != []
    requires 0.0 <= rand < Cum(pool, weight, |pool|)
    ensures First(pool, weight, rand, 0) == First(pool, weight, rand.Floor as real, 0)
  {
    var i := First(pool, weight, rand, 0);
    CumIsInteger(pool, weight, w, i);
    CumIsInteger(pool, weight, w, i + 1);
    WholePart(IntCum(pool, w, i), rand);
    WholePart(IntCum(pool, w, i + 1), rand);
    PickIsProportional(pool, weight, rand, i);
    PickIsProportional(pool, weight, rand.Floor as real, i);
  }

  predicate Selects<T>(pool: seq<T>, weight: T -> real, d: nat, i: nat)
    requires pool != []
  {
    First(pool, weight, d as real, 0) == i
  }

  /** The whole draws that select item `i`. */
  ghost function Selecting<T>(pool: seq<T>, weight: T -> real, total: nat, i: nat): set<nat>
    requires pool != []
  {
    set d: nat | d < total && Selects(pool, weight, d, i)
  }

  /** With integer weights, item `i` is selected by exactly as many of the `total` whole draws as its weight. */
  lemma SelectedByItsWeight<T(!new)>(pool: seq<T>, weight: T -> real, w: T -> nat, i: nat)
    requires IntegerWeights(weight, w) && AllPositive(pool, weight) && i < |pool|
    ensures |Selecting(pool, weight, IntCum(pool, w, |pool|), i)| == w(pool[i])
  {
    var total, a, b := IntCum(pool, w, |pool|), IntCum(pool, w, i), IntCum(pool, w, i + 1);
    CumIsInteger(pool, weight, w, |pool|);
    CumIsInteger(pool, weight, w, i);
    CumIsInteger(pool, weight, w, i + 1);
    CumGrows(pool, weight, i + 1, |pool|);
    forall d: nat | d < total
      ensures Selects(pool, weight, d, i) <==> Between(a, d, b)
    {
      PickIsProportional(pool, weight, d as real, i);
    }
    assert Selecting(pool, weight, total, i) == Span(a, b);
    SpanSize(a, b);
  }

  /** A source whose every point is the whole number `d`. */
  function Whole(d: nat): Points {
    (k: nat, length: real) => d as real
  }

  predicate PutsFirst<T(==)>(pool: seq<T>, weight: T -> real, d: nat, x: T)
    requires pool != []
  {
    Shuffled(pool, weight, Whole(d), 0)[0] == x
  }

  /** The whole draws below `total` that put an item first. */
  ghost function PuttingFirst<T>(pool: seq<T>, weight: T -> real, total: nat, x: T): set<nat>
    requires pool != []
  {
    set d: nat | d < total && PutsFirst(pool, weight, d, x)
  }

  /** Which item comes first is decided by the whole part of the first point alone. */
  lemma WholePartPutsFirst<T(!new)>(pool: seq<T>, weight: T -> real, w: T -> nat, points: Points, k: nat)
    requires IntegerWeights(weight, w) && AllPositive(pool, weight) && pool != []
    requires 0.0 <= points(k, Cum(pool, weight, |pool|)) < Cum(pool, weight, |pool|)
    ensures PutsFirst(pool, weight, points(k, Cum(pool, weight, |pool|)).Floor, Shuffled(pool, weight, points, k)[0])
  {
    WholePartDecides(pool, weight, w, points(k, Cum(pool, weight, |pool|)));
  }

  lemma OnePieceMore<T(!new)>(pool: seq<T>, weight: T -> real, w: T -> nat, i: nat, x: T)
    requires IntegerWeights(weight, w) && AllPositive(pool, weight) && i < |pool|
    ensures
      var a, b := IntCum(pool, w, i), IntCum(pool, w, i + 1);
      |PuttingFirst(pool, weight, b, x)| == |PuttingFirst(pool, weight, a, x)| + if pool[i] == x then w(x) else 0
  {
    var a, b := IntCum(pool, w, i), IntCum(pool, w, i + 1);
    PieceGoesFirst(pool, weight, w, i, x);
    var before, more := PuttingFirst(pool, weight, a, x), if pool[i] == x then Span(a, b) else {};
    assert PuttingFirst(pool, weight, b, x) == before + more;
    assert before !! more;
    SpanSize(a, b);
  }

  /** The weights of the occurrences of an item among the first `n`. */
  function Weighed<T(==)>(pool: seq<T>, w: T -> nat, n: nat, x: T): nat
    requires n <= |pool|
  {
    if n == 0 then 0 else Weighed(pool, w, n - 1, x) + if pool[n - 1] == x then w(x) else 0
  }

  lemma OnceMore(a: nat, m: nat)
    ensures a * (m + 1) == a * m + a
  {
  }

  lemma {:induction false} WeighedByOccurrences<T>(pool: seq<T>, w: T -> nat, n: nat, x: T)
    requires n <= |pool|
    ensures Weighed(pool, w, n, x) == w(x) * multiset(pool[..n])[x]
  {
    if n > 0 {
      WeighedByOccurrences(pool, w, n - 1, x);
      assert pool[..n] == pool[..n - 1] + [pool[n - 1]];
      OnceMore(w(x), multiset(pool[..n - 1])[x]);
    }
  }

  lemma {:induction false} FirstAmong<T(!new)>(pool: seq<T>, weight: T -> real, w: T -> nat, n: nat, x: T)
    requires IntegerWeights(weight, w) && AllPositive(pool, weight) && n <= |pool| && pool != []
    ensures |PuttingFirst(pool, weight, IntCum(pool, w, n), x)| == Weighed(pool, w, n, x)
    decreases n
  {
    if n == 0 {
      assert PuttingFirst(pool, weight, 0, x) == {};
    } else {
      FirstAmong(pool, weight, w, n - 1, x);
      OnePieceMore(pool, weight, w, n - 1, x);
    }
  }

  /** A draw in the piece of an item puts that item first. */
  lemma PieceGoesFirst<T(!new)>(pool: seq<T>, weight: T -> real, w: T -> nat, i: nat, x: T)
    requires IntegerWeights(weight, w) && AllPositive(pool, weight) && i < |pool|
    ensures IntCum(pool, w, i) <= IntCum(pool, w, i + 1)
    ensures forall d :: Between(IntCum(pool, w, i), d, IntCum(pool, w, i + 1)) ==>
              (PutsFirst(pool, weight, d, x) <==> pool[i] == x)
  {
    CumIsInteger(pool, weight, w, |pool|);
    CumIsInteger(pool, weight, w, i);
    CumIsInteger(pool, weight, w, i + 1);
    CumGrows(pool, weight, i + 1, |pool|);
    forall d | Between(IntCum(pool, w, i), d, IntCum(pool, w, i + 1))
      ensures PutsFirst(pool, weight, d, x) <==> pool[i] == x
    {
      PickIsProportional(pool, weight, d as real, i);
    }
  }

  /**
   * With integer weights an item comes first for exactly as many of the whole draws as it weighs, for
   * each time that it stands in the pool.
   */
  lemma FirstPlaceGoesByWeight<T(!new)>(pool: seq<T>, weight: T -> real, w: T -> nat, x: T)
    requires IntegerWeights(weight, w) && AllPositive(pool, weight) && pool != []
    ensures |PuttingFirst(pool, weight, IntCum(pool, w, |pool|), x)| == w(x) * multiset(pool)[x]
  {
    FirstAmong(pool, weight, w, |pool|, x);
    WeighedByOccurrences(pool, w, |pool|, x);
    assert pool[..|pool|] == pool;
  }

  predicate Between(a: nat, d: nat, b: nat) {
    a <= d < b
  }

  ghost function Span(a: nat, b: nat): set<nat> {
    set d: nat | d < b && Between(a, d, b)
  }

  lemma {:induction false} SpanSize(a: nat, b: nat)
    requires a <= b
    ensures |Span(a, b)| == b - a
    decreases b
  {
    if a < b {
      SpanSize(a, b - 1);
      assert forall d: nat :: Between(a, d, b) <==> Between(a, d, b - 1) || d == b - 1;
      assert Span(a, b) == Span(a, b - 1) + {b - 1};
    }
  }
}
