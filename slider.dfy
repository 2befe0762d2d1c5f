/** The hero slider of script.js (lines 57-191): one slide index, an 'active'
    flag per slide and per dot, the auto-advance interval, and the listeners
    that drive them. Timers are the browser's: `setInterval` hands out a fresh
    handle and `clearInterval(h)` stops interval `h` if it still runs. */
module Slider {
  import opened SlideIndex
  import opened Swipe

  /** The keys the slider's keydown listener tells apart. */
  datatype Key = ArrowLeft | ArrowRight | OtherKey

  class HeroSlider {
    /** 'active' class of each `.slide`, in document order. */
    const slides: array<bool>
    /** 'active' class of each `.dot`; there may be fewer or more dots than slides. */
    const dots: array<bool>
    const hasPrevButton: bool
    const hasNextButton: bool
    /** Whether the page has a `.slider-container`. */
    const hasContainer: bool

    var currentSlide: nat
    /** The last handle `setInterval` returned; 0 while `slideInterval` is still undefined. */
    var slideInterval: nat
    /** The handles of this page's intervals that the browser still runs. */
    var liveTimers: set<nat>
    /** The handle the next `setInterval` returns. */
    var nextTimerId: nat
    /** Whether `initSlider` attached its hover and touch pause listeners. */
    var pauseListeners: bool
    var touchStartX: int
    var touchEndX: int

    /** The controller's invariant: the index is in range, and no interval
        runs except the one `slideInterval` names, so at most one runs. */
    ghost predicate Valid()
      reads this
    {
      slides != dots &&
      (if slides.Length == 0 then currentSlide == 0 else currentSlide < slides.Length) &&
      0 < nextTimerId && slideInterval < nextTimerId &&
      liveTimers <= {slideInterval} &&
      (liveTimers != {} ==> slides.Length > 0) &&
      (pauseListeners ==> slides.Length > 0 && hasContainer)
    }

    /** Exactly the current slide is active, and the current dot when that dot exists. */
    ghost predicate Shown()
      reads this, slides, dots
    {
      MarksOnly(slides[..], currentSlide) && MarksOnly(dots[..], currentSlide)
    }

    /** The slider now shows `target`: only the flags of the old and the new
        slide and dot changed, and the touch coordinates did not. */
    twostate predicate MovedTo(target: nat)
      reads this, slides, dots
    {
      currentSlide == target &&
      slides[..] == Retarget(old(slides[..]), old(currentSlide), target) &&
      dots[..] == Retarget(old(dots[..]), old(currentSlide), target) &&
      touchStartX == old(touchStartX) && touchEndX == old(touchEndX)
    }

    /** Page setup of lines 58-64 and 150-151, then `initSlider()` (line 191).
        The flags are the classes the HTML gives each slide and dot. */
    constructor Create(slideFlags: seq<bool>, dotFlags: seq<bool>,
                       hasPrevButton: bool, hasNextButton: bool, hasContainer: bool)
      ensures Valid() && fresh(slides) && fresh(dots)
      ensures this.hasPrevButton == hasPrevButton && this.hasNextButton == hasNextButton
      ensures this.hasContainer == hasContainer
      ensures currentSlide == 0 && touchStartX == 0 && touchEndX == 0
      ensures pauseListeners == (hasContainer && |slideFlags| > 0)
      ensures |slideFlags| == 0 ==> slides[..] == [] && dots[..] == dotFlags && liveTimers == {}
      ensures |slideFlags| > 0 ==> slides[..] == slideFlags[0 := true] && liveTimers == {slideInterval}
      ensures |slideFlags| > 0 ==> dots[..] == if |dotFlags| > 0 then dotFlags[0 := true] else dotFlags
      ensures (|slideFlags| > 0 && (forall k :: 0 < k < |slideFlags| ==> !slideFlags[k]) &&
               (forall k :: 0 < k < |dotFlags| ==> !dotFlags[k])) ==> Shown()
    {
      slides := new bool[|slideFlags|](i requires 0 <= i < |slideFlags| => slideFlags[i]);
      dots := new bool[|dotFlags|](i requires 0 <= i < |dotFlags| => dotFlags[i]);
      this.hasPrevButton, this.hasNextButton, this.hasContainer := hasPrevButton, hasNextButton, hasContainer;
      currentSlide, slideInterval, liveTimers, nextTimerId := 0, 0, {}, 1;
      pauseListeners, touchStartX, touchEndX := false, 0, 0;
      new;
      assert slides[..] == slideFlags && dots[..] == dotFlags;
      InitSlider();
    }

    /** `initSlider`: with no slides it does nothing; otherwise it activates
        slide 0 and dot 0 (leaving other flags as the HTML set them), starts
        the auto-advance and attaches the pause listeners if the container exists. */
    method InitSlider()
      requires Valid() && currentSlide == 0 && liveTimers == {} && !pauseListeners
      modifies this`slideInterval, this`liveTimers, this`nextTimerId, this`pauseListeners, slides, dots
      ensures Valid()
      ensures slides.Length == 0 ==> unchanged(dots) && liveTimers == {} && !pauseListeners
      ensures slides.Length > 0 ==> slides[..] == old(slides[..])[0 := true] && liveTimers == {slideInterval}
      ensures slides.Length > 0 ==> dots[..] == if dots.Length > 0 then old(dots[..])[0 := true] else old(dots[..])
      ensures slides.Length > 0 ==> pauseListeners == hasContainer
      ensures (slides.Length > 0 && old(forall k :: 0 < k < slides.Length ==> !slides[k]) &&
               old(forall k :: 0 < k < dots.Length ==> !dots[k])) ==> Shown()
    {
      if slides.Length == 0 {
        return;
      }
      slides[0] := true;
      if dots.Length > 0 {
        dots[0] := true;
      }
      StartAutoSlide();
      if hasContainer {
        pauseListeners := true;
      }
    }

    /** The browser's `clearInterval(h)`: stops interval `h` if it runs, and does nothing otherwise. */
    method ClearInterval(h: nat)
      modifies this`liveTimers
      ensures liveTimers == old(liveTimers) - {h}
    {
      liveTimers := liveTimers - {h};
    }

    /** The browser's `setInterval(nextSlide, 5000)`: starts an interval under a fresh handle. */
    method SetInterval() returns (h: nat)
      modifies this`liveTimers, this`nextTimerId
      ensures h == old(nextTimerId) && nextTimerId == h + 1
      ensures liveTimers == old(liveTimers) + {h}
    {
      h := nextTimerId;
      nextTimerId := nextTimerId + 1;
      liveTimers := liveTimers + {h};
    }

    /** `startAutoSlide`: whatever ran before, exactly one interval runs
        afterwards, and it is a new one (so calling it twice is the same as
        calling it once). */
    method StartAutoSlide()
      requires Valid() && slides.Length > 0
      modifies this`slideInterval, this`liveTimers, this`nextTimerId
      ensures Valid()
      ensures liveTimers == {slideInterval} && slideInterval !in old(liveTimers)
      ensures slideInterval == old(nextTimerId) && nextTimerId == old(nextTimerId) + 1
    {
      ClearInterval(slideInterval);
      slideInterval := SetInterval();
    }

    /** `goToSlide(n)`: the new index is `n` wrapped into range, and only the
        old and the new slide (and dot) change their flag. */
    method GoToSlide(n: int)
      requires Valid() && slides.Length > 0 && n + slides.Length >= 0
      modifies this`currentSlide, slides, dots
      ensures Valid()
      ensures MovedTo(WrapIndex(n, slides.Length))
      ensures old(Shown()) ==> Shown()
    {
      ghost var oldSlides, oldDots := slides[..], dots[..];
      slides[currentSlide] := false;
      if currentSlide < dots.Length {
        dots[currentSlide] := false;
      }
      currentSlide := WrapIndex(n, slides.Length);
      slides[currentSlide] := true;
      if currentSlide < dots.Length {
        dots[currentSlide] := true;
      }
      assert slides[..] == Retarget(oldSlides, old(currentSlide), currentSlide);
      assert dots[..] == Retarget(oldDots, old(currentSlide), currentSlide);
      if old(Shown()) {
        RetargetKeepsSingleMark(oldSlides, old(currentSlide), currentSlide);
        RetargetKeepsSingleMark(oldDots, old(currentSlide), currentSlide);
      }
    }

    /** `nextSlide`: moves one slide forward, from the last back to the first. */
    method NextSlide()
      requires Valid() && slides.Length > 0
      modifies this`currentSlide, slides, dots
      ensures Valid()
      ensures MovedTo(NextIndex(old(currentSlide), slides.Length))
      ensures old(Shown()) ==> Shown()
    {
      GoToSlide(currentSlide + 1);
    }

    /** `prevSlide`: moves one slide back, from the first round to the last. */
    method PrevSlide()
      requires Valid() && slides.Length > 0
      modifies this`currentSlide, slides, dots
      ensures Valid()
      ensures MovedTo(PrevIndex(old(currentSlide), slides.Length))
      ensures old(Shown()) ==> Shown()
    {
      GoToSlide(currentSlide - 1);
    }

    /** The auto-advance interval `id` fires: `nextSlide` runs and the
        interval keeps running, not restarted. */
    method Tick(id: nat)
      requires Valid() && id in liveTimers
      modifies this`currentSlide, slides, dots
      ensures Valid()
      ensures MovedTo(NextIndex(old(currentSlide), slides.Length))
      ensures liveTimers == old(liveTimers) && slideInterval == old(slideInterval)
      ensures old(Shown()) ==> Shown()
    {
      NextSlide();
    }

    /** Click on the next button: `nextSlide()` then `startAutoSlide()`. With
        no slides `nextSlide` throws at line 107 before changing anything. */
    method ClickNext() returns (ok: bool)
      requires Valid() && hasNextButton
      modifies this`currentSlide, this`slideInterval, this`liveTimers, this`nextTimerId, slides, dots
      ensures Valid()
      ensures ok == (slides.Length > 0)
      ensures !ok ==> unchanged(this) && unchanged(slides) && unchanged(dots)
      ensures ok ==>
                MovedTo(NextIndex(old(currentSlide), slides.Length)) && liveTimers == {slideInterval} &&
                slideInterval !in old(liveTimers)
      ensures old(Shown()) ==> Shown()
    {
      if slides.Length == 0 {
        return false;
      }
      NextSlide();
      StartAutoSlide();
      ok := true;
    }

    /** Click on the previous button: `prevSlide()` then `startAutoSlide()`. */
    method ClickPrev() returns (ok: bool)
      requires Valid() && hasPrevButton
      modifies this`currentSlide, this`slideInterval, this`liveTimers, this`nextTimerId, slides, dots
      ensures Valid()
      ensures ok == (slides.Length > 0)
      ensures !ok ==> unchanged(this) && unchanged(slides) && unchanged(dots)
      ensures ok ==>
                MovedTo(PrevIndex(old(currentSlide), slides.Length)) && liveTimers == {slideInterval} &&
                slideInterval !in old(liveTimers)
      ensures old(Shown()) ==> Shown()
    {
      if slides.Length == 0 {
        return false;
      }
      PrevSlide();
      StartAutoSlide();
      ok := true;
    }

    /** Click on dot `i`: `goToSlide(i)` then `startAutoSlide()`; a dot past
        the last slide lands on `i mod N`. */
    method ClickDot(i: nat) returns (ok: bool)
      requires Valid() && i < dots.Length
      modifies this`currentSlide, this`slideInterval, this`liveTimers, this`nextTimerId, slides, dots
      ensures Valid()
      ensures ok == (slides.Length > 0)
      ensures !ok ==> unchanged(this) && unchanged(slides) && unchanged(dots)
      ensures ok ==> MovedTo(i % slides.Length) && liveTimers == {slideInterval} && slideInterval !in old(liveTimers)
      ensures old(Shown()) ==> Shown()
    {
      if slides.Length == 0 {
        return false;
      }
      GoToSlide(i);
      StartAutoSlide();
      ok := true;
    }

    /** The document keydown listener: the left and right arrows click the
        previous and next buttons when those exist; any other key does nothing. */
    method KeyDown(key: Key) returns (ok: bool)
      requires Valid()
      modifies this`currentSlide, this`slideInterval, this`liveTimers, this`nextTimerId, slides, dots
      ensures Valid()
      ensures key == ArrowLeft && hasPrevButton ==> ok == (slides.Length > 0)
      ensures key == ArrowRight && hasNextButton ==> ok == (slides.Length > 0)
      ensures ok && key == ArrowLeft && hasPrevButton ==>
                MovedTo(PrevIndex(old(currentSlide), slides.Length)) && liveTimers == {slideInterval} &&
                slideInterval !in old(liveTimers)
      ensures ok && key == ArrowRight && hasNextButton ==>
                MovedTo(NextIndex(old(currentSlide), slides.Length)) && liveTimers == {slideInterval} &&
                slideInterval !in old(liveTimers)
      ensures !ok || !((key == ArrowLeft && hasPrevButton) || (key == ArrowRight && hasNextButton)) ==>
                unchanged(this) && unchanged(slides) && unchanged(dots)
      ensures old(Shown()) ==> Shown()
    {
      ok := true;
      if key == ArrowLeft {
        if hasPrevButton {
          ok := ClickPrev();
        }
      } else if key == ArrowRight {
        if hasNextButton {
          ok := ClickNext();
        }
      }
    }

    /** `mouseenter` on the container: the pause listener stops the interval. */
    method MouseEnter()
      requires Valid() && hasContainer
      modifies this`liveTimers
      ensures Valid()
      ensures liveTimers == if pauseListeners then {} else old(liveTimers)
    {
      if pauseListeners {
        ClearInterval(slideInterval);
      }
    }

    /** `mouseleave` on the container: the pause listener restarts the interval. */
    method MouseLeave()
      requires Valid() && hasContainer
      modifies this`slideInterval, this`liveTimers, this`nextTimerId
      ensures Valid()
      ensures pauseListeners ==> liveTimers == {slideInterval} && slideInterval !in old(liveTimers)
      ensures !pauseListeners ==> unchanged(this)
    {
      if pauseListeners {
        StartAutoSlide();
      }
    }

    /** `touchstart` on the container: the swipe listener (line 155) records
        the position, then the pause listener (line 89) stops the interval. */
    method TouchStart(x: int)
      requires Valid() && hasContainer
      modifies this`touchStartX, this`liveTimers
      ensures Valid()
      ensures touchStartX == x
      ensures liveTimers == if pauseListeners then {} else old(liveTimers)
    {
      touchStartX := x;
      if pauseListeners {
        ClearInterval(slideInterval);
      }
    }

    /** `handleSwipe`: a swipe to the left moves to the next slide, one to the
        right to the previous slide, each restarting the interval; anything
        within 50 px changes nothing. With no slides a swipe throws at line 107. */
    method HandleSwipe() returns (ok: bool)
      requires Valid()
      modifies this`currentSlide, this`slideInterval, this`liveTimers, this`nextTimerId, slides, dots
      ensures Valid()
      ensures ok == (Classify(touchStartX, touchEndX) == Ignore || slides.Length > 0)
      ensures !ok || Classify(touchStartX, touchEndX) == Ignore ==> unchanged(this) && unchanged(slides) && unchanged(dots)
      ensures ok && Classify(touchStartX, touchEndX) == Gesture.Advance ==>
                MovedTo(NextIndex(old(currentSlide), slides.Length)) && liveTimers == {slideInterval} &&
                slideInterval !in old(liveTimers)
      ensures ok && Classify(touchStartX, touchEndX) == Retreat ==>
                MovedTo(PrevIndex(old(currentSlide), slides.Length)) && liveTimers == {slideInterval} &&
                slideInterval !in old(liveTimers)
      ensures old(nextTimerId) <= nextTimerId
      ensures old(Shown()) ==> Shown()
    {
      ok := true;
      if SwipedLeft(touchStartX, touchEndX) {
        if slides.Length == 0 {
          return false;
        }
        NextSlide();
        StartAutoSlide();
      }
      if SwipedRight(touchStartX, touchEndX) {
        if slides.Length == 0 {
          return false;
        }
        PrevSlide();
        StartAutoSlide();
      }
    }

    /** `touchend` on the container: the swipe listener (line 159) records
        the position and runs `handleSwipe`; then the pause listener (line 93)
        restarts the interval. */
    method TouchEnd(x: int) returns (ok: bool)
      requires Valid() && hasContainer
      modifies this, slides, dots
      ensures Valid()
      ensures touchEndX == x && touchStartX == old(touchStartX) && pauseListeners == old(pauseListeners)
      ensures ok == (Classify(touchStartX, x) == Ignore || slides.Length > 0)
      ensures Classify(touchStartX, x) == Ignore ==> currentSlide == old(currentSlide) && unchanged(slides) && unchanged(dots)
      ensures ok && Classify(touchStartX, x) == Gesture.Advance ==>
                currentSlide == NextIndex(old(currentSlide), slides.Length)
      ensures ok && Classify(touchStartX, x) == Retreat ==>
                currentSlide == PrevIndex(old(currentSlide), slides.Length)
      ensures ok && Classify(touchStartX, x) != Ignore ==>
                slides[..] == Retarget(old(slides[..]), old(currentSlide), currentSlide) &&
                dots[..] == Retarget(old(dots[..]), old(currentSlide), currentSlide)
      ensures pauseListeners || (ok && Classify(touchStartX, x) != Ignore) ==>
                liveTimers == {slideInterval} && slideInterval !in old(liveTimers)
      ensures !pauseListeners && Classify(touchStartX, x) == Ignore ==> liveTimers == old(liveTimers)
      ensures !ok ==> liveTimers == old(liveTimers) && unchanged(slides) && unchanged(dots)
      ensures old(Shown()) ==> Shown()
    {
      touchEndX := x;
      ok := HandleSwipe();
      if pauseListeners {
        StartAutoSlide();
      }
    }
  }

  /** Three slides starting at slide 0: the next button visits 1, 2 and wraps to 0. */
  method ThreeNextClicks() returns (visited: seq<nat>)
    ensures visited == [1, 2, 0]
  {
    var s := new HeroSlider.Create([false, false, false], [false, false, false], true, true, true);
    var ok := s.ClickNext();
    visited := [s.currentSlide];
    ok := s.ClickNext();
    visited := visited + [s.currentSlide];
    ok := s.ClickNext();
    visited := visited + [s.currentSlide];
  }

  /** Starting the auto-advance twice leaves one interval, and its tick moves one slide. */
  method DoubleStartThenTick() returns (running: set<nat>, slideAfterTick: nat)
    ensures |running| == 1 && slideAfterTick == 1
  {
    var s := new HeroSlider.Create([true, false, false], [], false, false, false);
    s.StartAutoSlide();
    s.StartAutoSlide();
    running := s.liveTimers;
    s.Tick(s.slideInterval);
    slideAfterTick := s.currentSlide;
  }

  /** Hovering stops every interval, so no tick can move the slide; leaving restarts one. */
  method HoverPausesAutoAdvance() returns (whileHovering: set<nat>, afterLeave: set<nat>)
    ensures whileHovering == {} && |afterLeave| == 1
  {
    var s := new HeroSlider.Create([false, false], [false, false], true, true, true);
    s.MouseEnter();
    whileHovering := s.liveTimers;
    s.MouseLeave();
    afterLeave := s.liveTimers;
  }

  /** A 60 px swipe to the left advances one slide; a 20 px one changes nothing. */
  method SwipeScenario() returns (afterLong: nat, afterShort: nat)
    ensures afterLong == 1 && afterShort == 1
  {
    var s := new HeroSlider.Create([false, false, false], [], false, false, true);
    s.TouchStart(300);
    var ok := s.TouchEnd(240);
    afterLong := s.currentSlide;
    s.TouchStart(300);
    ok := s.TouchEnd(280);
    afterShort := s.currentSlide;
  }

  /** With no slides nothing is activated and no interval starts. */
  method NoSlidesStaysInert() returns (running: set<nat>, dotFlags: seq<bool>)
    ensures running == {} && dotFlags == [false, true]
  {
    var s := new HeroSlider.Create([], [false, true], true, true, true);
    running := s.liveTimers;
    dotFlags := s.dots[..];
  }
}
