/**
 * Runs of the slideshow built only from the contracts of class `Slideshow`:
 * what a viewer sees after a sequence of triggers and timer steps.
 */
module Scenarios {
  import opened Wrappers
  import opened Sequencer
  import opened Animation
  import opened Carousel

  /**
   * List ["a", "b", "c"] at slide 0, the "next" button, then every timer step:
   * the second image is shown at rest and nothing is leaving.
   */
  method NextThenSettle(k: nat) returns (active: Option<string>, index: nat, leaving: Option<string>, inFlight: bool, animation: string)
    requires k < |Palette|
    ensures active == Some("b") && index == 1 && leaving == None && !inFlight
    ensures animation == Palette[k]
  {
    var s := new Slideshow();
    s.FetchSucceeded(["a", "b", "c"]);
    s.HandleNext(k);
    s.Phase2();
    s.Phase3();
    s.Phase4();
    active, index, leaving, inFlight, animation := s.activeImage, s.currentSlideIndex, s.leavingImage, s.isTransitioning, s.currentAnimation;
  }

  /** The "previous" button at slide 0 of three slides wraps to slide 2. */
  method PrevWraps(k: nat) returns (active: Option<string>, index: nat)
    requires k < |Palette|
    ensures active == Some("c") && index == 2
  {
    var s := new Slideshow();
    s.FetchSucceeded(["a", "b", "c"]);
    s.HandlePrev(k);
    s.Phase2();
    s.Phase3();
    s.Phase4();
    active, index := s.activeImage, s.currentSlideIndex;
  }

  /**
   * Until the +100 ms step the viewer still sees the old slide as current,
   * though it is already leaving; the index moves at that step and only then.
   */
  method IndexMovesAtSwap(k: nat) returns (before: nat, leaving: Option<string>, afterSwap: nat, afterShow: nat, afterClear: nat)
    requires k < |Palette|
    ensures before == 0 && leaving == Some("a")
    ensures afterSwap == 1 && afterShow == 1 && afterClear == 1
  {
    var s := new Slideshow();
    s.FetchSucceeded(["a", "b", "c"]);
    s.SwitchImage(k);
    before, leaving := s.currentSlideIndex, s.leavingImage;
    s.Phase2();
    afterSwap := s.currentSlideIndex;
    s.Phase3();
    afterShow := s.currentSlideIndex;
    s.Phase4();
    afterClear := s.currentSlideIndex;
  }

  /**
   * Triggers that arrive while a transition is in flight are dropped: the
   * transition started first completes with its own target and animation.
   */
  method TriggersDuringTransitionIgnored(k1: nat, k2: nat) returns (index: nat, animation: string)
    requires k1 < |Palette| && k2 < |Palette|
    ensures index == 1 && animation == Palette[k1]
  {
    var s := new Slideshow();
    s.FetchSucceeded(["a", "b", "c"]);
    s.HandleNext(k1);
    s.HandlePrev(k2);
    s.GoToSlide(2, k2);
    s.IntervalTick(k2);
    s.Phase2();
    s.HandleNext(k2);
    s.Phase3();
    s.HandlePrev(k2);
    s.Phase4();
    index, animation := s.currentSlideIndex, s.currentAnimation;
  }

  /**
   * A late show: the clean-up fires before the show of the same transition
   * (when the page was blocked past both delays), a new trigger is accepted,
   * and the old show then reveals the active image while the new swap is
   * still pending. The new transition still ends on its own target.
   */
  method ShowAfterClear(k1: nat, k2: nat) returns (accepted: bool, shownDuringSwap: bool, index: nat, active: Option<string>)
    requires k1 < |Palette| && k2 < |Palette|
    ensures accepted && shownDuringSwap
    ensures index == 2 && active == Some("c")
  {
    var s := new Slideshow();
    s.FetchSucceeded(["a", "b", "c"]);
    s.HandleNext(k1);
    s.Phase2();
    s.Phase4();
    s.HandleNext(k2);
    accepted := s.isTransitioning;
    s.Phase3();
    shownDuringSwap := s.showActive && s.swap.Some?;
    s.Phase2();
    s.Phase3();
    s.Phase4();
    index, active := s.currentSlideIndex, s.activeImage;
  }

  /** An empty list: auto-advance is never armed and "next" does nothing. */
  method EmptyListStaysIdle(k: nat) returns (armed: bool, active: Option<string>, inFlight: bool)
    requires k < |Palette|
    ensures !armed && active == None && !inFlight
  {
    var s := new Slideshow();
    s.FetchSucceeded([]);
    armed := s.AutoAdvanceArmed();
    s.HandleNext(k);
    s.HandlePrev(k);
    active, inFlight := s.activeImage, s.isTransitioning;
  }

  /** The indicator of the current slide starts no transition. */
  method GoToCurrentIsNoOp(k: nat) returns (inFlight: bool, showing: bool, index: nat)
    requires k < |Palette|
    ensures !inFlight && showing && index == 0
  {
    var s := new Slideshow();
    s.FetchSucceeded(["a", "b"]);
    s.GoToSlide(0, k);
    inFlight, showing, index := s.isTransitioning, s.showActive, s.currentSlideIndex;
  }

  /** Pausing disarms auto-advance and playing again re-arms it. */
  method PauseDisarms() returns (armedAtStart: bool, armedPaused: bool, armedResumed: bool)
    ensures armedAtStart && !armedPaused && armedResumed
  {
    var s := new Slideshow();
    s.FetchSucceeded(["a"]);
    armedAtStart := s.AutoAdvanceArmed();
    s.TogglePause();
    armedPaused := s.AutoAdvanceArmed();
    s.TogglePause();
    armedResumed := s.AutoAdvanceArmed();
  }

  /**
   * `n` auto-advance transitions, each run to completion, bring a list of
   * `n` slides back to the slide it started from.
   */
  method FullRound(imgs: seq<string>, ks: seq<nat>) returns (index: nat, active: Option<string>)
    requires imgs != [] && |ks| == |imgs|
    requires forall j :: 0 <= j < |ks| ==> ks[j] < |Palette|
    ensures index == 0 && active == Some(imgs[0])
  {
    var s := new Slideshow();
    s.FetchSucceeded(imgs);
    var n := |imgs|;
    var j := 0;
    while j < n
      invariant 0 <= j <= n
      invariant s.Valid() && s.images == imgs && !s.isPaused
      invariant s.swap == None && s.pendingShows == 0 && !s.clearPending
      invariant s.currentSlideIndex == NextN(0, n, j)
    {
      s.IntervalTick(ks[j]);
      s.Phase2();
      s.Phase3();
      s.Phase4();
      j := j + 1;
    }
    NextCycle(0, n);
    index, active := s.currentSlideIndex, s.activeImage;
  }
}
