/** The banner carousel on the home page: the index of the slide shown, moved by the arrows,
    the dots and the five-second timer, all modulo the number of banners. */
module Carousel {

  /** The index state. `% 0` in JavaScript gives NaN, which is not a slide. */
  datatype Position = Slide(k: int) | NaN

  /** JavaScript's `%`: the remainder takes the sign of the dividend. The carousel only ever
      divides a non-negative index; the negative case is kept to show the sign rule. */
  function JsRem(a: int, n: int): (r: int)
    requires n > 0
    ensures a >= 0 ==> 0 <= r < n && r == a % n
    ensures a < 0 ==> -n < r <= 0
  {
    if a >= 0 then a % n else -((-a) % n)
  }

  /** Below twice the divisor, the remainder subtracts the divisor at most once. */
  lemma WrapOnce(a: int, n: int)
    requires n > 0
    ensures 0 <= a < 2 * n ==> JsRem(a, n) == if a < n then a else a - n
  {
    if 0 <= a < n {
      assert a / n == 0;
    } else if n <= a < 2 * n {
      assert a / n == 1;
    }
  }

  /** `(prev + 1) % banners.length`, shared by the next arrow and the timer. */
  function NextPosition(p: Position, n: nat): (r: Position)
    ensures n == 0 || p == NaN ==> r == NaN
    ensures n > 0 && p.Slide? && 0 <= p.k < n ==> r.Slide? && 0 <= r.k < n
    ensures n > 0 && p.Slide? && 0 <= p.k < n - 1 ==> r == Slide(p.k + 1)
    ensures n > 0 && p == Slide(n - 1) ==> r == Slide(0)
  {
    match p
    case NaN => NaN
    case Slide(k) => if n == 0 then NaN else WrapOnce(k + 1, n); Slide(JsRem(k + 1, n))
  }

  /** `(prev - 1 + banners.length) % banners.length`. */
  function PrevPosition(p: Position, n: nat): (r: Position)
    ensures n == 0 || p == NaN ==> r == NaN
    ensures n > 0 && p.Slide? && 0 <= p.k < n ==> r.Slide? && 0 <= r.k < n
    ensures n > 0 && p.Slide? && 0 < p.k < n ==> r == Slide(p.k - 1)
    ensures n > 0 && p == Slide(0) ==> r == Slide(n - 1)
  {
    match p
    case NaN => NaN
    case Slide(k) => if n == 0 then NaN else WrapOnce(k - 1 + n, n); Slide(JsRem(k - 1 + n, n))
  }

  /** Next and previous undo each other on every slide. */
  lemma NextPrevInverse(k: int, n: nat)
    requires 0 <= k < n
    ensures PrevPosition(NextPosition(Slide(k), n), n) == Slide(k)
    ensures NextPosition(PrevPosition(Slide(k), n), n) == Slide(k)
  {
  }

  /** `steps` presses of next (or timer ticks). */
  function Advance(p: Position, n: nat, steps: nat): Position {
    if steps == 0 then p else NextPosition(Advance(p, n, steps - 1), n)
  }

  /** Within one round, j steps from slide k show slide k + j, wrapped past the last slide
      back to the first: (k + j) mod n for j <= n. */
  lemma {:induction false} AdvanceWraps(k: int, n: nat, steps: nat)
    requires 0 <= k < n && steps <= n
    ensures Advance(Slide(k), n, steps) == Slide(if k + steps < n then k + steps else k + steps - n)
  {
    if steps > 0 {
      AdvanceWraps(k, n, steps - 1);
    }
  }

  /** n ticks bring the carousel back to the slide it started on. */
  lemma FullCycleReturns(k: int, n: nat)
    requires 0 <= k < n
    ensures Advance(Slide(k), n, n) == Slide(k)
  {
    AdvanceWraps(k, n, n);
  }

  /** With no banners the first tick leaves the slides: the state becomes NaN and stays NaN. */
  lemma EmptyCarouselGoesNaN(steps: nat)
    requires steps > 0
    ensures Advance(Slide(0), 0, steps) == NaN
  {
    if steps > 1 {
      EmptyCarouselGoesNaN(steps - 1);
    }
  }

  /** Nothing is rendered without banners. */
  predicate RendersNothing(n: nat) {
    n == 0
  }

  /** The arrows and the dots are shown only for more than one banner. */
  predicate ShowsControls(n: nat) {
    n > 1
  }

  /** The controls are drawn exactly when they can move the index: with one banner both arrows
      and the timer stay on it, with several every step changes the slide, and with none the
      carousel, which draws nothing, would step to NaN. */
  lemma ControlsMatchMovement(k: int, n: nat)
    ensures RendersNothing(n) <==> NextPosition(Slide(k), n) == NaN
    ensures 0 <= k < n ==> (ShowsControls(n) <==> NextPosition(Slide(k), n) != Slide(k))
    ensures 0 <= k < n ==> (ShowsControls(n) <==> PrevPosition(Slide(k), n) != Slide(k))
  {
  }

  class BannerCarousel {
    const count: nat
    var current: Position

    /** With at least one banner the index always names a slide. */
    ghost predicate Valid()
      reads this
    {
      count > 0 ==> current.Slide? && 0 <= current.k < count
    }

    /** The index starts at 0. */
    constructor (count: nat)
      ensures Valid() && this.count == count && current == Slide(0)
    {
      this.count := count;
      current := Slide(0);
    }

    /** `goToNext`. */
    method Next()
      requires Valid()
      modifies this`current
      ensures Valid() && current == NextPosition(old(current), count)
    {
      current := NextPosition(current, count);
    }

    /** The interval's callback: the same step as `goToNext`. */
    method Tick()
      requires Valid()
      modifies this`current
      ensures Valid() && current == NextPosition(old(current), count)
    {
      Next();
    }

    /** `goToPrevious`. */
    method Previous()
      requires Valid()
      modifies this`current
      ensures Valid() && current == PrevPosition(old(current), count)
    {
      current := PrevPosition(current, count);
    }

    /** A click on dot `index`; dots exist only for the banners' indices. */
    method Dot(index: nat)
      requires Valid() && index < count
      modifies this`current
      ensures Valid() && current == Slide(index)
    {
      current := Slide(index);
    }
  }
}
