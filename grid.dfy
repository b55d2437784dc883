/** The fixed three-column grid both pages lay their cards out on (book_finder.py, lines 69, 80, 112, 114). */
module Grid {

  const Columns := 3

  /** The column card `i` goes to: `cols[i % 3]`. */
  function Column(i: nat): (c: nat)
    ensures c < Columns
    ensures (i - c) % Columns == 0
    ensures i < Columns ==> c == i
  {
    i % Columns
  }

  /** A card together with the column it is rendered in. */
  datatype Placed<T> = Placed(column: nat, card: T)

  /** Cards laid out in enumeration order, card `i` in column `i % 3`. */
  function Layout<T>(cards: seq<T>): (r: seq<Placed<T>>)
    ensures |r| == |cards|
    ensures forall i :: 0 <= i < |r| ==> r[i].card == cards[i] && r[i].column == Column(i)
  {
    seq(|cards|, i requires 0 <= i < |cards| => Placed(Column(i), cards[i]))
  }

  /** Laying out one more card puts it at the end, in the column of its position. */
  lemma LayoutSnoc<T>(cards: seq<T>, x: T)
    ensures Layout(cards + [x]) == Layout(cards) + [Placed(Column(|cards|), x)]
  {
  }

  /** The layout of a prefix one element longer ends in that element's card. */
  lemma LayoutTakeSnoc<T>(cards: seq<T>, i: nat)
    requires i < |cards|
    ensures Layout(cards[..i + 1]) == Layout(cards[..i]) + [Placed(Column(i), cards[i])]
  {
    assert cards[..i + 1] == cards[..i] + [cards[i]];
    LayoutSnoc(cards[..i], cards[i]);
  }

  /** Laying out a prefix gives a prefix of the layout. */
  lemma LayoutPrefix<T>(cards: seq<T>, n: nat)
    requires n <= |cards|
    ensures Layout(cards)[..n] == Layout(cards[..n])
  {
  }

  /** How many placed cards sit in column `c`. */
  function Occupancy<T>(placed: seq<Placed<T>>, c: nat): nat
    decreases |placed|
  {
    if |placed| == 0 then 0
    else Occupancy(placed[..|placed| - 1], c) + (if placed[|placed| - 1].column == c then 1 else 0)
  }

  /**
   * Column `c` of a layout of n cards holds ceil((n - c) / 3) of them, so
   * the columns are filled left to right and differ by at most one card.
   */
  lemma {:induction false} LayoutOccupancy<T>(cards: seq<T>, c: nat)
    requires c < Columns
    ensures Occupancy(Layout(cards), c) == (|cards| + Columns - 1 - c) / Columns
    decreases |cards|
  {
    if |cards| > 0 {
      var n := |cards| - 1;
      LayoutPrefix(cards, n);
      LayoutOccupancy(cards[..n], c);
    }
  }

  /** Every card of a layout is in exactly one of the three columns. */
  lemma {:induction false} OccupancyTotal<T>(placed: seq<Placed<T>>)
    requires forall i :: 0 <= i < |placed| ==> placed[i].column < Columns
    ensures Occupancy(placed, 0) + Occupancy(placed, 1) + Occupancy(placed, 2) == |placed|
    decreases |placed|
  {
    if |placed| > 0 {
      OccupancyTotal(placed[..|placed| - 1]);
    }
  }
}
