/** The hero carousel (components/store/game-carousel.tsx): a `currentIndex`
    state moved by the arrow buttons, a five-second interval and the dots. */
module Carousel {
  import opened Models

  /** The value of `currentIndex`. JavaScript's `x % 0` is `NaN`, and `NaN`
      stays `NaN` under `+ 1` and `%`, so an empty list can leave the index
      without a number. */
  datatype Index = At(i: int) | NaN

  /** JavaScript's `%` on integers: `a` minus a whole multiple of `n`, with
      the sign of the dividend and smaller than the divisor in size. */
  function JsRem(a: int, n: int): (r: int)
    requires n > 0
    ensures exists q :: a == q * n + r
    ensures a >= 0 ==> 0 <= r < n
    ensures a < 0 ==> -n < r <= 0
  {
    if a >= 0 then
      assert a == (a / n) * n + a % n;
      a % n
    else
      assert -a == ((-a) / n) * n + (-a) % n;
      assert a == (-((-a) / n)) * n + -((-a) % n);
      -((-a) % n)
  }

  /** `(prevIndex + 1) % games.length` */
  function Next(idx: Index, n: nat): (r: Index)
    ensures n > 0 && idx.At? && 0 <= idx.i < n ==> r.At? && 0 <= r.i < n
    ensures n > 0 && idx.At? && 0 <= idx.i < n - 1 ==> r == At(idx.i + 1)
    ensures n > 0 && idx == At(n - 1) ==> r == At(0)
    ensures n == 0 ==> r == NaN
  {
    match idx
    case NaN => NaN
    case At(i) => if n == 0 then NaN else At(JsRem(i + 1, n))
  }

  /** `(prevIndex - 1 + games.length) % games.length` */
  function Previous(idx: Index, n: nat): (r: Index)
    ensures n > 0 && idx.At? && 0 <= idx.i < n ==> r.At? && 0 <= r.i < n
    ensures n > 0 && idx.At? && 0 < idx.i < n ==> r == At(idx.i - 1)
    ensures n > 0 && idx == At(0) ==> r == At(n - 1)
    ensures n == 0 ==> r == NaN
  {
    match idx
    case NaN => NaN
    case At(i) => if n == 0 then NaN else At(JsRem(i - 1 + n, n))
  }

  /** Next then previous, and previous then next, return to where they started. */
  lemma NextPreviousInverse(i: int, n: nat)
    requires 0 <= i < n
    ensures Previous(Next(At(i), n), n) == At(i)
    ensures Next(Previous(At(i), n), n) == At(i)
  {
  }

  /** `k` steps forward from `idx`. */
  function Advance(idx: Index, n: nat, k: nat): Index
  {
    if k == 0 then idx else Next(Advance(idx, n, k - 1), n)
  }

  /** Up to a full turn, `k` steps forward from `i` land on `i + k`, wrapped once. */
  lemma {:induction false} AdvanceWraps(i: int, n: nat, k: nat)
    requires 0 <= i < n && k <= n
    ensures Advance(At(i), n, k) == At(if i + k < n then i + k else i + k - n)
  {
    if k > 0 {
      AdvanceWraps(i, n, k - 1);
    }
  }

  /** After `n` steps forward the carousel is back at the same game. */
  lemma FullCycle(i: int, n: nat)
    requires 0 <= i < n
    ensures Advance(At(i), n, n) == At(i)
  {
    AdvanceWraps(i, n, n);
  }

  /** The carousel's state for one `games` list. */
  class GameCarousel {
    const games: seq<Game>
    var currentIndex: Index

    /** With at least one game the index names one of them. */
    ghost predicate Valid()
      reads this
    {
      |games| > 0 ==> currentIndex.At? && 0 <= currentIndex.i < |games|
    }

    /** `useState(0)` */
    constructor (games: seq<Game>)
      ensures this.games == games && currentIndex == At(0) && Valid()
    {
      this.games := games;
      currentIndex := At(0);
    }

    method GoToNext()
      requires Valid()
      modifies this
      ensures Valid() && currentIndex == Next(old(currentIndex), |games|)
    {
      currentIndex := Next(currentIndex, |games|);
    }

    method GoToPrevious()
      requires Valid()
      modifies this
      ensures Valid() && currentIndex == Previous(old(currentIndex), |games|)
    {
      currentIndex := Previous(currentIndex, |games|);
    }

    /** The interval callback: the same step as the right arrow. */
    method Tick()
      requires Valid()
      modifies this
      ensures Valid() && currentIndex == Next(old(currentIndex), |games|)
    {
      currentIndex := Next(currentIndex, |games|);
    }

    /** `setCurrentIndex(index)` from the dot at `index`; there is one dot per game. */
    method SelectDot(index: nat)
      requires index < |games|
      modifies this
      ensures Valid() && currentIndex == At(index)
    {
      currentIndex := At(index);
    }

    /** What the component renders: nothing for an empty list, otherwise
        `games[currentIndex]`, which is then always in range. */
    function CurrentGame(): (g: Option<Game>)
      requires Valid()
      reads this
      ensures g.None? <==> |games| == 0
      ensures g.Some? ==> g.value in games
    {
      if |games| == 0 then None else Some(games[currentIndex.i])
    }

    /** The highlighted dot: `index === currentIndex`. The highlighted dot is
        the one of the game on show, and no other dot is highlighted with it. */
    predicate DotIsActive(index: nat)
      reads this
      ensures DotIsActive(index) && Valid() && |games| > 0 ==>
                index < |games| && CurrentGame() == Some(games[index])
      ensures DotIsActive(index) ==> forall j: nat :: j != index ==> currentIndex != At(j)
    {
      currentIndex == At(index)
    }
  }
}
