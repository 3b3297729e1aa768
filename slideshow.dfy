/**
 * The fullscreen slideshow of `initSlideshow` in scripts/main.js: an index into
 * `n > 0` slides, a transition lock that a settle timer clears, one auto-advance
 * interval, the active flags of slides and dots, and the `loading` attribute of
 * each slide's image. The DOM, timers and gestures become fields and events:
 * `Settle()` is the 1500 ms timeout that clears the lock, `Tick()` one firing
 * of the 5000 ms interval.
 */
module FullscreenSlideshow {
  import opened Wrappers
  import opened Modular

  /** The `loading` attribute of an `<img>`. */
  datatype Loading = Lazy | Eager | Auto

  /** The first image inside a slide, if the slide has one. */
  datatype SlideImage = NoImage | Image(loading: Loading)

  /** What a horizontal touch gesture asks for. */
  datatype Swipe = SwipeNext | SwipePrev | NoSwipe

  datatype Key = ArrowLeft | ArrowRight | OtherKey

  const SwipeThreshold: int := 50

  /**
   * The two guards at the top of `goToSlide`: a negative index becomes the
   * last slide and an index past the end becomes the first; nothing else is
   * wrapped (so -5 becomes n-1 and n+7 becomes 0).
   */
  function Normalize(index: int, n: nat): (r: nat)
    requires n > 0
    ensures r < n
    ensures 0 <= index < n ==> r == index
    ensures index < 0 ==> r == n - 1
    ensures index >= n ==> r == 0
  {
    var i := if index < 0 then n - 1 else index;
    if i >= n then 0 else i
  }

  /** Stepping from a valid index is arithmetic modulo `n`. */
  lemma NormalizeNeighbours(c: nat, n: nat)
    requires c < n
    ensures Normalize(c + 1, n) == (c + 1) % n
    ensures Normalize(c - 1, n) == (c + n - 1) % n
    ensures c == n - 1 ==> Normalize(c + 1, n) == 0
    ensures c == 0 ==> Normalize(c - 1, n) == n - 1
  {
    if c + 1 < n {
      ModOfSmall(c + 1, n);
    } else {
      assert (c + 1) % n == 0;
    }
    if c == 0 {
      ModOfSmall(n - 1, n);
    } else {
      assert (c + n - 1) == (c - 1) + n;
      ModOfSmall(c - 1, n);
    }
  }

  /** The index after `k` successful `nextSlide` calls from `c`, each after the lock cleared. */
  function Advance(c: nat, n: nat, k: nat): (r: nat)
    requires c < n
    ensures r < n
  {
    if k == 0 then c else Normalize(Advance(c, n, k - 1) + 1, n)
  }

  /** `k` successful advances move the index by `k` modulo `n`. */
  lemma {:induction false} AdvanceIsModular(c: nat, n: nat, k: nat)
    requires c < n
    ensures Advance(c, n, k) == (c + k) % n
  {
    if k == 0 {
      ModOfSmall(c, n);
    } else {
      AdvanceIsModular(c, n, k - 1);
      var a := Advance(c, n, k - 1);
      NormalizeNeighbours(a, n);
      ModSuccessor(c + k - 1, n);
    }
  }

  /** Calling `nextSlide` `n` times, waiting out each settle delay, returns to the start. */
  lemma FullCycleReturns(c: nat, n: nat)
    requires c < n
    ensures Advance(c, n, n) == c
  {
    AdvanceIsModular(c, n, n);
    assert c + n == c + 1 * n;
    ModOfSmall(c, n);
  }

  /**
   * `preloadNextSlide` applied at slide `k`: a lazy image there becomes eager;
   * no other slide changes and nothing becomes lazy.
   */
  function Preloaded(images: seq<SlideImage>, k: nat): (r: seq<SlideImage>)
    requires k < |images|
    ensures |r| == |images|
    ensures r[k] != Image(Lazy)
    ensures forall j :: 0 <= j < |images| && j != k ==> r[j] == images[j]
    ensures forall j :: 0 <= j < |images| && r[j] != images[j] ==>
      images[j] == Image(Lazy) && r[j] == Image(Eager)
  {
    if images[k].Image? && images[k].loading == Lazy then images[k := Image(Eager)] else images
  }

  /**
   * `handleSwipe`: a drag longer than 50 px asks for the next slide when it
   * went left (start right of end) and for the previous one otherwise.
   */
  function ClassifySwipe(startX: int, endX: int): (s: Swipe)
    ensures s == SwipeNext <==> startX - endX > SwipeThreshold
    ensures s == SwipePrev <==> endX - startX > SwipeThreshold
    ensures s == NoSwipe <==> -SwipeThreshold <= startX - endX <= SwipeThreshold
  {
    var diff := startX - endX;
    var magnitude := if diff < 0 then -diff else diff;
    if magnitude > SwipeThreshold then
      if diff > 0 then SwipeNext else SwipePrev
    else
      NoSwipe
  }

  /**
   * Removes `active` at `from` and adds it at `to`; like `dots[i]?.classList`,
   * an index with no element is skipped.
   */
  function MoveActive(flags: seq<bool>, from: nat, to: nat): (r: seq<bool>)
    ensures |r| == |flags|
    ensures forall k :: 0 <= k < |flags| && k != from && k != to ==> r[k] == flags[k]
    ensures to < |flags| ==> r[to]
    ensures from < |flags| && from != to ==> !r[from]
  {
    var cleared := if from < |flags| then flags[from := false] else flags;
    if to < |flags| then cleared[to := true] else cleared
  }

  class Slideshow {
    /** Number of `.slide` elements. */
    const n: nat
    /** Number of `.slideshow-dot` elements; it need not equal `n`. */
    const dotCount: nat
    /** `currentSlide`. */
    var current: nat
    /** `isTransitioning`. */
    var transitioning: bool
    /** Lock-clearing timeouts scheduled and not yet fired. */
    var settleTimers: nat
    /** Whether slide `k` has the `active` class. */
    var slideActive: seq<bool>
    /** Whether dot `k` has the `active` class. */
    var dotActive: seq<bool>
    var images: seq<SlideImage>
    /** `slideInterval`: the last handle `setInterval` returned, never reset by `stopSlideshow`. */
    var handle: Option<nat>
    /** Ids of intervals set and not cleared. */
    var running: set<nat>
    /** The id the next `setInterval` hands out; browser ids are positive. */
    var nextTimerId: nat
    var touchStartX: int
    var touchEndX: int

    ghost predicate Valid()
      reads this
    {
      && n > 0
      && current < n
      && |slideActive| == n
      && |images| == n
      && |dotActive| == dotCount
      && (forall k :: 0 <= k < n ==> slideActive[k] == (k == current))
      && (forall k :: 0 <= k < dotCount ==> dotActive[k] == (k == current))
      && settleTimers == (if transitioning then 1 else 0)
      && (handle.None? ==> running == {})
      && (handle.Some? ==> running <= {handle.value} && 0 < handle.value < nextTimerId)
      && nextTimerId > 0
    }

    /**
     * The part of `initSlideshow` after its guards, with the markup showing the
     * first slide and the first dot active: it starts the interval and preloads.
     */
    constructor (slideImages: seq<SlideImage>, dots: nat)
      requires |slideImages| > 0
      ensures Valid()
      ensures n == |slideImages| && dotCount == dots
      ensures current == 0 && !transitioning
      ensures handle.Some? && running == {handle.value}
      ensures images == Preloaded(slideImages, 1 % n)
    {
      n := |slideImages|;
      dotCount := dots;
      current := 0;
      transitioning := false;
      settleTimers := 0;
      slideActive := seq(|slideImages|, k => k == 0);
      dotActive := seq(dots, k => k == 0);
      images := slideImages;
      handle := None;
      running := {};
      nextTimerId := 1;
      touchStartX := 0;
      touchEndX := 0;
      new;
      StartSlideshow();
      PreloadNextSlide();
    }

    /** The original `goToSlide`, before it is rebound. */
    method MoveTo(index: int)
      requires Valid()
      modifies this
      ensures Valid()
      ensures old(transitioning) ==> unchanged(this)
      ensures !old(transitioning) ==> current == Normalize(index, n) && transitioning && settleTimers == 1
      ensures unchanged(this`images, this`handle, this`running, this`nextTimerId)
      ensures unchanged(this`touchStartX, this`touchEndX)
    {
      if transitioning {
        return;
      }
      var i := index;
      if i < 0 {
        i := n - 1;
      }
      if i >= n {
        i := 0;
      }
      transitioning := true;
      slideActive := MoveActive(slideActive, current, i);
      dotActive := MoveActive(dotActive, current, i);
      current := i;
      settleTimers := settleTimers + 1;
    }

    /** `preloadNextSlide`. */
    method PreloadNextSlide()
      requires Valid()
      modifies this`images
      ensures Valid()
      ensures images == Preloaded(old(images), (current + 1) % n)
    {
      var next := (current + 1) % n;
      if images[next].Image? && images[next].loading == Lazy {
        images := images[next := Image(Eager)];
      }
    }

    /**
     * `goToSlide` as rebound at the end of `initSlideshow`: the original, then
     * the preload, which runs even when the lock dropped the navigation.
     */
    method GoToSlide(index: int)
      requires Valid()
      modifies this
      ensures Valid()
      ensures old(transitioning) ==> current == old(current) && settleTimers == old(settleTimers)
      ensures old(transitioning) ==> slideActive == old(slideActive) && dotActive == old(dotActive)
      ensures !old(transitioning) ==> current == Normalize(index, n) && settleTimers == 1
      ensures transitioning
      ensures forall k :: 0 <= k < n ==> slideActive[k] == (k == current)
      ensures forall k :: 0 <= k < dotCount ==> dotActive[k] == (k == current)
      ensures images == Preloaded(old(images), (current + 1) % n)
      ensures unchanged(this`handle, this`running, this`nextTimerId)
      ensures unchanged(this`touchStartX, this`touchEndX)
    {
      MoveTo(index);
      PreloadNextSlide();
    }

    /** `nextSlide`. */
    method NextSlide()
      requires Valid()
      modifies this
      ensures Valid() && transitioning
      ensures current == if old(transitioning) then old(current) else (old(current) + 1) % n
      ensures old(transitioning) ==> settleTimers == old(settleTimers)
      ensures images == Preloaded(old(images), (current + 1) % n)
      ensures unchanged(this`handle, this`running, this`nextTimerId)
      ensures unchanged(this`touchStartX, this`touchEndX)
    {
      NormalizeNeighbours(current, n);
      GoToSlide(current + 1);
    }

    /** `prevSlide`. */
    method PrevSlide()
      requires Valid()
      modifies this
      ensures Valid() && transitioning
      ensures current == if old(transitioning) then old(current) else (old(current) + n - 1) % n
      ensures old(transitioning) ==> settleTimers == old(settleTimers)
      ensures images == Preloaded(old(images), (current + 1) % n)
      ensures unchanged(this`handle, this`running, this`nextTimerId)
      ensures unchanged(this`touchStartX, this`touchEndX)
    {
      NormalizeNeighbours(current, n);
      GoToSlide(current - 1);
    }

    /** `stopSlideshow`: clears the interval the handle names; the handle itself stays. */
    method StopSlideshow()
      requires Valid()
      modifies this`running
      ensures Valid()
      ensures running == {}
    {
      if handle.Some? {
        running := running - {handle.value};
      }
    }

    /** `startSlideshow`: whatever ran before is cleared and exactly one new interval runs. */
    method StartSlideshow()
      requires Valid()
      modifies this`running, this`handle, this`nextTimerId
      ensures Valid()
      ensures handle == Some(old(nextTimerId)) && running == {handle.value}
    {
      StopSlideshow();
      handle := Some(nextTimerId);
      running := running + {nextTimerId};
      nextTimerId := nextTimerId + 1;
    }

    /** The auto-advance interval fires. */
    method Tick()
      requires Valid() && running != {}
      modifies this
      ensures Valid() && transitioning
      ensures current == if old(transitioning) then old(current) else (old(current) + 1) % n
      ensures images == Preloaded(old(images), (current + 1) % n)
      ensures unchanged(this`handle, this`running, this`nextTimerId)
      ensures unchanged(this`touchStartX, this`touchEndX)
    {
      NextSlide();
    }

    /** The 1500 ms timeout scheduled by a successful navigation fires and clears the lock. */
    method Settle()
      requires Valid() && settleTimers > 0
      modifies this`transitioning, this`settleTimers
      ensures Valid()
      ensures !transitioning && settleTimers == 0
    {
      transitioning := false;
      settleTimers := settleTimers - 1;
    }

    /** A click on the previous button: navigate, then restart the timer. */
    method PrevButtonClick()
      requires Valid()
      modifies this
      ensures Valid() && transitioning
      ensures current == if old(transitioning) then old(current) else (old(current) + n - 1) % n
      ensures images == Preloaded(old(images), (current + 1) % n)
      ensures handle == Some(old(nextTimerId)) && running == {handle.value}
      ensures unchanged(this`touchStartX, this`touchEndX)
    {
      PrevSlide();
      StartSlideshow();
    }

    /** A click on the next button: navigate, then restart the timer. */
    method NextButtonClick()
      requires Valid()
      modifies this
      ensures Valid() && transitioning
      ensures current == if old(transitioning) then old(current) else (old(current) + 1) % n
      ensures images == Preloaded(old(images), (current + 1) % n)
      ensures handle == Some(old(nextTimerId)) && running == {handle.value}
      ensures unchanged(this`touchStartX, this`touchEndX)
    {
      NextSlide();
      StartSlideshow();
    }

    /**
     * A click on dot `index`. The dot of the current slide does nothing; any
     * other dot navigates (a dot past the last slide goes to slide 0) and
     * restarts the timer.
     */
    method DotClick(index: nat)
      requires Valid() && index < dotCount
      modifies this
      ensures Valid()
      ensures index == old(current) ==> unchanged(this)
      ensures unchanged(this`touchStartX, this`touchEndX)
      ensures index != old(current) ==>
        && transitioning
        && current == (if old(transitioning) then old(current) else Normalize(index, n))
        && images == Preloaded(old(images), (current + 1) % n)
        && handle == Some(old(nextTimerId)) && running == {handle.value}
    {
      if index != current {
        GoToSlide(index);
        StartSlideshow();
      }
    }

    /**
     * A key press while the slideshow is at least partly in the viewport
     * (`inView`): the arrow keys act like the buttons, other keys do nothing.
     */
    method KeyDown(key: Key, inView: bool)
      requires Valid()
      modifies this
      ensures Valid()
      ensures !inView || key == OtherKey ==> unchanged(this)
      ensures inView && key == ArrowLeft ==>
        current == (if old(transitioning) then old(current) else (old(current) + n - 1) % n)
      ensures inView && key == ArrowRight ==>
        current == (if old(transitioning) then old(current) else (old(current) + 1) % n)
      ensures unchanged(this`touchStartX, this`touchEndX)
      ensures inView && key != OtherKey ==>
        transitioning && images == Preloaded(old(images), (current + 1) % n) &&
        handle == Some(old(nextTimerId)) && running == {handle.value}
    {
      if inView {
        if key == ArrowLeft {
          PrevSlide();
          StartSlideshow();
        } else if key == ArrowRight {
          NextSlide();
          StartSlideshow();
        }
      }
    }

    /** Hovering pauses the auto-advance. */
    method MouseEnter()
      requires Valid()
      modifies this`running
      ensures Valid() && running == {}
    {
      StopSlideshow();
    }

    /** Leaving resumes it with a fresh interval. */
    method MouseLeave()
      requires Valid()
      modifies this`running, this`handle, this`nextTimerId
      ensures Valid()
      ensures handle == Some(old(nextTimerId)) && running == {handle.value}
    {
      StartSlideshow();
    }

    /** `touchstart`: remembers where the gesture began. */
    method TouchStart(x: int)
      requires Valid()
      modifies this`touchStartX
      ensures Valid() && touchStartX == x
    {
      touchStartX := x;
    }

    /**
     * `touchend` and `handleSwipe`: a drag over the threshold makes exactly one
     * navigation attempt and then restarts the timer; a shorter one changes
     * nothing but the recorded end point.
     */
    method TouchEnd(x: int)
      requires Valid()
      modifies this
      ensures Valid() && touchEndX == x && touchStartX == old(touchStartX)
      ensures ClassifySwipe(touchStartX, x) == NoSwipe ==>
        unchanged(this`current, this`transitioning, this`settleTimers, this`slideActive, this`dotActive) &&
        unchanged(this`images, this`handle, this`running, this`nextTimerId)
      ensures ClassifySwipe(touchStartX, x) == SwipeNext ==>
        current == (if old(transitioning) then old(current) else (old(current) + 1) % n)
      ensures ClassifySwipe(touchStartX, x) == SwipePrev ==>
        current == (if old(transitioning) then old(current) else (old(current) + n - 1) % n)
      ensures ClassifySwipe(touchStartX, x) != NoSwipe ==>
        transitioning && images == Preloaded(old(images), (current + 1) % n) &&
        handle == Some(old(nextTimerId)) && running == {handle.value}
    {
      touchEndX := x;
      HandleSwipe();
    }

    /** `handleSwipe`. */
    method HandleSwipe()
      requires Valid()
      modifies this
      ensures Valid()
      ensures unchanged(this`touchStartX, this`touchEndX)
      ensures ClassifySwipe(touchStartX, touchEndX) == NoSwipe ==> unchanged(this)
      ensures ClassifySwipe(touchStartX, touchEndX) == SwipeNext ==>
        current == (if old(transitioning) then old(current) else (old(current) + 1) % n)
      ensures ClassifySwipe(touchStartX, touchEndX) == SwipePrev ==>
        current == (if old(transitioning) then old(current) else (old(current) + n - 1) % n)
      ensures ClassifySwipe(touchStartX, touchEndX) != NoSwipe ==>
        transitioning && images == Preloaded(old(images), (current + 1) % n) &&
        handle == Some(old(nextTimerId)) && running == {handle.value}
    {
      var diff := touchStartX - touchEndX;
      if diff > SwipeThreshold || -diff > SwipeThreshold {
        if diff > 0 {
          NextSlide();
        } else {
          PrevSlide();
        }
        StartSlideshow();
      }
    }
  }

  /** `initSlideshow`: without the `#slideshow` container or without slides nothing is set up. */
  method InitSlideshow(hasContainer: bool, slideImages: seq<SlideImage>, dots: nat) returns (s: Slideshow?)
    ensures s == null <==> !hasContainer || |slideImages| == 0
    ensures s != null ==> fresh(s) && s.Valid() && s.n == |slideImages| && s.current == 0
  {
    if !hasContainer || |slideImages| == 0 {
      return null;
    }
    s := new Slideshow(slideImages, dots);
  }

  /** Two navigations with no settle in between: only the first takes effect. */
  method RapidNavigation(s: Slideshow, first: int, second: int)
    requires s.Valid() && !s.transitioning
    modifies s
    ensures s.Valid() && s.current == Normalize(first, s.n)
  {
    s.GoToSlide(first);
    s.GoToSlide(second);
  }

  /** Starting the auto-advance twice still leaves a single interval running. */
  method StartTwice(s: Slideshow)
    requires s.Valid()
    modifies s
    ensures s.Valid() && |s.running| == 1
  {
    s.StartSlideshow();
    s.StartSlideshow();
  }

  /**
   * Three slides and four clicks on the next button, the second before the
   * settle delay: the index goes 1, stays 1, then 2, then wraps to 0.
   */
  method ThreeSlideWalk() returns (positions: seq<nat>)
    ensures positions == [1, 1, 2, 0]
  {
    var s := new Slideshow([NoImage, NoImage, NoImage], 3);
    assert s.n == 3 && s.current == 0 && !s.transitioning;
    s.NextButtonClick();
    var first := s.current;
    assert first == 1 && s.transitioning;
    s.NextButtonClick();
    var second := s.current;
    assert second == 1;
    s.Settle();
    s.NextButtonClick();
    var third := s.current;
    assert third == 2;
    s.Settle();
    s.NextButtonClick();
    positions := [first, second, third, s.current];
  }
}
