// The index arithmetic of the three carousels: the gallery's next and
// previous buttons, the hero slider of app.js (buttons, dots and a timer,
// all going through `goToSlide`), and the auto-advancing slider of
// public/app.js. Each is set up only when there is at least one slide.
module Carousel {

  /** The slide after `i`, wrapping from the last to the first:
      `(i + 1) % n`. */
  function Next(i: int, n: int): (r: int)
    requires 0 <= i < n
    ensures 0 <= r < n
    ensures r == if i + 1 < n then i + 1 else 0
  {
    (i + 1) % n
  }

  /** The slide before `i`, wrapping from the first to the last:
      `(i - 1 + n) % n`. */
  function Prev(i: int, n: int): (r: int)
    requires 0 <= i < n
    ensures 0 <= r < n
    ensures r == if i > 0 then i - 1 else n - 1
  {
    (i - 1 + n) % n
  }

  /** Next and previous undo each other. */
  lemma NextPrevInverse(i: int, n: int)
    requires 0 <= i < n
    ensures Prev(Next(i, n), n) == i
    ensures Next(Prev(i, n), n) == i
  {
  }

  /** The slide after `m` clicks on next. */
  function NextN(i: int, n: int, m: nat): (r: int)
    requires 0 <= i < n
    ensures 0 <= r < n
  {
    if m == 0 then i else Next(NextN(i, n, m - 1), n)
  }

  /** Clicks compose: `a + b` clicks are `a` clicks followed by `b`. */
  lemma {:induction false} NextNSplit(i: int, n: int, a: nat, b: nat)
    requires 0 <= i < n
    ensures NextN(i, n, a + b) == NextN(NextN(i, n, a), n, b)
  {
    if b > 0 {
      NextNSplit(i, n, a, b - 1);
    }
  }

  /** Short of the end, `m` clicks move `m` slides on. */
  lemma {:induction false} NextNBelow(i: int, n: int, m: nat)
    requires 0 <= i && i + m < n
    ensures NextN(i, n, m) == i + m
  {
    if m > 0 {
      NextNBelow(i, n, m - 1);
    }
  }

  /** `n` clicks on next come back to the slide they started from. */
  lemma NextNFullTurn(i: int, n: int)
    requires 0 <= i < n
    ensures NextN(i, n, n) == i
  {
    NextNSplit(i, n, n - 1 - i, 1 + i);
    NextNBelow(i, n, n - 1 - i);
    NextNSplit(n - 1, n, 1, i);
    NextNBelow(0, n, i);
  }

  /** `goToSlide(index)`: an index at or past the end goes to the first
      slide, a negative one to the last, any other is kept. */
  function Wrap(index: int, n: int): (r: int)
    requires n > 0
    ensures 0 <= r < n
    ensures 0 <= index < n ==> r == index
  {
    if index >= n then 0 else if index < 0 then n - 1 else index
  }

  /** The hero slider's clamping agrees with the gallery's modular
      arithmetic on the steps its buttons take. */
  lemma WrapSteps(i: int, n: int)
    requires 0 <= i < n
    ensures Wrap(i + 1, n) == Next(i, n)
    ensures Wrap(i - 1, n) == Prev(i, n)
  {
  }

  /** `toggle('active', i === current)` over `n` slides or dots: when the
      current index is a slide, exactly one flag is on, at that index; when it
      is not, none is. */
  function ActiveFlags(current: int, n: nat): (r: seq<bool>)
    ensures |r| == n
    ensures 0 <= current < n ==> r[current] && multiset(r)[true] == 1
    ensures !(0 <= current < n) ==> true !in r
    ensures forall i :: 0 <= i < n && i != current ==> !r[i]
  {
    if n == 0 then []
    else
      var init := ActiveFlags(current, n - 1);
      var r := init + [n - 1 == current];
      assert multiset(r) == multiset(init) + multiset{n - 1 == current};
      r
  }

  /** The gallery of app.js: a track moved by whole slides, and a counter. */
  class Gallery {
    var currentIndex: int
    const total: nat

    ghost predicate Valid()
      reads this
    {
      0 <= currentIndex < total
    }

    constructor (total: nat)
      requires total > 0
      ensures Valid() && this.total == total && currentIndex == 0
    {
      this.total := total;
      currentIndex := 0;
    }

    /** The counter's text, `(currentIndex + 1) • totalSlides`: a position
        counted from one, never past the count. */
    function Counter(): (r: (int, int))
      requires Valid()
      reads this
      ensures 1 <= r.0 <= r.1 && r.1 == total
    {
      (currentIndex + 1, total)
    }

    /** The track's shift, `-(currentIndex * 100)` percent: never to the
        right, and never past the last slide. */
    function Shift(): (r: int)
      requires Valid()
      reads this
      ensures -100 * (total - 1) <= r <= 0 && r % 100 == 0
    {
      -(currentIndex * 100)
    }

    method NextClick()
      requires Valid()
      modifies this`currentIndex
      ensures Valid() && currentIndex == Next(old(currentIndex), total)
    {
      currentIndex := (currentIndex + 1) % total;
    }

    method PrevClick()
      requires Valid()
      modifies this`currentIndex
      ensures Valid() && currentIndex == Prev(old(currentIndex), total)
    {
      currentIndex := (currentIndex - 1 + total) % total;
    }
  }

  /** The hero slider of app.js. */
  class Slider {
    var current: int
    const count: nat

    ghost predicate Valid()
      reads this
    {
      0 <= current < count
    }

    constructor (count: nat)
      requires count > 0
      ensures Valid() && this.count == count && current == 0
    {
      this.count := count;
      current := 0;
    }

    /** Which slides and dots are shown active. */
    function Active(): (r: seq<bool>)
      requires Valid()
      reads this
      ensures |r| == count && r[current]
      ensures forall i :: 0 <= i < count && r[i] ==> i == current
    {
      ActiveFlags(current, count)
    }

    /** `goToSlide(index)`, reached from a dot with that dot's index and from
        the buttons and the timer with a neighbouring index. */
    method GoToSlide(index: int)
      requires Valid()
      modifies this`current
      ensures Valid() && current == Wrap(index, count)
    {
      current := index;
      if current >= count {
        current := 0;
      }
      if current < 0 {
        current := count - 1;
      }
    }

    /** `nextSlide()`, run by the next button and by the timer. */
    method NextSlide()
      requires Valid()
      modifies this`current
      ensures Valid() && current == Next(old(current), count)
    {
      WrapSteps(current, count);
      GoToSlide(current + 1);
    }

    /** `prevSlide()`, run by the previous button. */
    method PrevSlide()
      requires Valid()
      modifies this`current
      ensures Valid() && current == Prev(old(current), count)
    {
      WrapSteps(current, count);
      GoToSlide(current - 1);
    }
  }

  /** The slider of public/app.js, advanced only by its timer. */
  class AutoSlider {
    var current: int
    const count: nat

    ghost predicate Valid()
      reads this
    {
      0 <= current < count
    }

    constructor (count: nat)
      requires count > 0
      ensures Valid() && this.count == count && current == 0
    {
      this.count := count;
      current := 0;
    }

    /** One tick of the interval. */
    method Tick()
      requires Valid()
      modifies this`current
      ensures Valid() && current == Next(old(current), count)
    {
      current := (current + 1) % count;
    }
  }
}
