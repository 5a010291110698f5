/**
 * The slideshow component's state machine (Slideshow.js). Every setter call
 * of the component becomes an assignment to a field of class `Slideshow`;
 * the three `setTimeout` callbacks of a transition become the methods
 * `Phase2` (the swap, 100 ms after the trigger), `Phase3` (the show, 50 ms
 * after the swap) and `Phase4` (the clean-up, 1200 ms after the trigger), and
 * the fields `swap`, `pendingShows` and `clearPending` record which of them
 * are still pending.
 */
module Carousel {
  import opened Wrappers
  import opened Sequencer
  import opened Animation

  /**
   * What the pending swap callback captured at trigger time: the target
   * index, its image and the chosen animation.
   */
  datatype Swap = Swap(target: nat, image: string, animation: string)

  class Slideshow {
    var images: seq<string>
    var currentSlideIndex: nat
    var activeImage: Option<string>
    var leavingImage: Option<string>
    var isPaused: bool
    var currentAnimation: string
    var isTransitioning: bool
    var showActive: bool
    /** The swap callback, scheduled with the clean-up at the trigger, while it is pending. */
    var swap: Option<Swap>
    /**
     * How many show callbacks are pending. Each swap schedules one; it may
     * still be pending after the clean-up and into a later transition.
     */
    var pendingShows: nat
    /** Whether the clean-up callback is pending. */
    var clearPending: bool

    /** The component's invariant between events. */
    ghost predicate Valid()
      reads this
    {
      && currentAnimation in Palette
      && (images == [] ==>
            currentSlideIndex == 0 && activeImage == None && leavingImage == None
            && !showActive && swap == None && pendingShows == 0 && !clearPending)
      && (images != [] ==>
            currentSlideIndex < |images| && activeImage == Some(images[currentSlideIndex]))
      // the in-flight flag is set exactly while the clean-up is pending
      && (isTransitioning <==> clearPending)
      // timers of equal origin fire in delay order: the swap precedes the clean-up
      && (swap.Some? ==> clearPending)
      && (clearPending <==> leavingImage.Some?)
      && (swap.Some? ==>
            && swap.value.target < |images| && swap.value.image == images[swap.value.target]
            && swap.value.animation in Palette
            && leavingImage == activeImage)
      // with no swap and no show pending, the active image is shown
      && (swap == None && pendingShows == 0 ==> showActive == (images != []))
    }

    /**
     * The immediate effects of an accepted trigger towards slide `target`
     * with animation `animation`: the in-flight flag is set, the active image
     * is hidden and recorded as the leaving one, the swap is scheduled, and
     * the index, the active image and the shown animation are not yet touched.
     */
    twostate predicate Accepted(target: nat, animation: string)
      reads this
    {
      && images == old(images) && isPaused == old(isPaused)
      && currentSlideIndex == old(currentSlideIndex)
      && activeImage == old(activeImage)
      && currentAnimation == old(currentAnimation)
      && isTransitioning && !showActive && leavingImage == old(activeImage)
      && target < |images| && swap == Some(Swap(target, images[target], animation))
      && clearPending && pendingShows == old(pendingShows)
    }

    /** Auto-advance runs its interval only while playing with a non-empty list. */
    predicate AutoAdvanceArmed(): (b: bool)
      reads this
      ensures b && Valid() ==> activeImage.Some? && currentSlideIndex < |images|
    {
      !isPaused && images != []
    }

    /** The component's initial state, before the image list is fetched. */
    constructor ()
      ensures Valid()
      ensures images == [] && currentSlideIndex == 0
      ensures activeImage == None && leavingImage == None
      ensures !isPaused && currentAnimation == InitialAnimation
      ensures !isTransitioning && !showActive
      ensures swap == None && pendingShows == 0 && !clearPending
    {
      images := [];
      currentSlideIndex := 0;
      activeImage := None;
      leavingImage := None;
      isPaused := false;
      currentAnimation := InitialAnimation;
      isTransitioning := false;
      showActive := false;
      swap := None;
      pendingShows := 0;
      clearPending := false;
    }

    /**
     * The fetch of the image list succeeded with `imgs`. The first image is
     * shown at once, without an animation. The fetch is issued at mount and
     * completes while the list is still empty.
     */
    method FetchSucceeded(imgs: seq<string>)
      requires Valid() && images == []
      modifies this
      ensures Valid()
      ensures images == imgs && currentSlideIndex == 0
      ensures imgs != [] ==> activeImage == Some(imgs[0]) && showActive
      ensures imgs == [] ==> activeImage == None && !showActive
      ensures leavingImage == None && !isTransitioning
      ensures swap == None && pendingShows == 0 && !clearPending
      ensures isPaused == old(isPaused) && currentAnimation == old(currentAnimation)
    {
      images := imgs;
      if |imgs| > 0 {
        activeImage := Some(imgs[0]);
        showActive := true;
      }
    }

    /** The common first step of every accepted trigger. */
    method Begin(target: nat, k: nat)
      requires Valid() && !isTransitioning && target < |images| && k < |Palette|
      modifies this
      ensures Valid() && Accepted(target, ChooseAnimation(k))
    {
      isTransitioning := true;
      var animation := ChooseAnimation(k);
      showActive := false;
      leavingImage := activeImage;
      swap := Some(Swap(target, images[target], animation));
      clearPending := true;
    }

    /**
     * Advance to the next slide (auto-advance and the "next" button). Ignored
     * when the list is empty or a transition is in flight. `k` is the random
     * animation choice.
     */
    method SwitchImage(k: nat)
      requires Valid() && k < |Palette|
      modifies this
      ensures Valid()
      ensures old(images == [] || isTransitioning) ==> unchanged(this)
      ensures !old(images == [] || isTransitioning) ==>
                Accepted(Next(old(currentSlideIndex), |old(images)|), ChooseAnimation(k))
    {
      if |images| == 0 || isTransitioning {
        return;
      }
      var nextIndex := Next(currentSlideIndex, |images|);
      Begin(nextIndex, k);
    }

    /** The "next" button: guarded by the in-flight flag, then `SwitchImage`. */
    method HandleNext(k: nat)
      requires Valid() && k < |Palette|
      modifies this
      ensures Valid()
      ensures old(images == [] || isTransitioning) ==> unchanged(this)
      ensures !old(images == [] || isTransitioning) ==>
                Accepted(Next(old(currentSlideIndex), |old(images)|), ChooseAnimation(k))
    {
      if !isTransitioning {
        SwitchImage(k);
      }
    }

    /** The "previous" button: like `SwitchImage`, towards the previous slide. */
    method HandlePrev(k: nat)
      requires Valid() && k < |Palette|
      modifies this
      ensures Valid()
      ensures old(images == [] || isTransitioning) ==> unchanged(this)
      ensures !old(images == [] || isTransitioning) ==>
                Accepted(Prev(old(currentSlideIndex), |old(images)|), ChooseAnimation(k))
    {
      if |images| == 0 || isTransitioning {
        return;
      }
      var prevIndex := Prev(currentSlideIndex, |images|);
      Begin(prevIndex, k);
    }

    /**
     * An indicator button: jump to slide `index`. The indicators are drawn
     * from the list itself, so `index` is always one of its positions.
     * Ignored when `index` is the current slide or a transition is in flight.
     */
    method GoToSlide(index: nat, k: nat)
      requires Valid() && index < |images| && k < |Palette|
      modifies this
      ensures Valid()
      ensures old(index == currentSlideIndex || isTransitioning) ==> unchanged(this)
      ensures !old(index == currentSlideIndex || isTransitioning) ==>
                Accepted(index, ChooseAnimation(k))
    {
      if index == currentSlideIndex || isTransitioning {
        return;
      }
      Begin(index, k);
    }

    /** One tick of the auto-advance interval, which exists only while armed. */
    method IntervalTick(k: nat)
      requires Valid() && AutoAdvanceArmed() && k < |Palette|
      modifies this
      ensures Valid()
      ensures old(isTransitioning) ==> unchanged(this)
      ensures !old(isTransitioning) ==>
                Accepted(Next(old(currentSlideIndex), |old(images)|), ChooseAnimation(k))
    {
      SwitchImage(k);
    }

    /** The pause/play button. */
    method TogglePause()
      requires Valid()
      modifies this
      ensures Valid()
      ensures isPaused == !old(isPaused)
      ensures images == old(images) && currentSlideIndex == old(currentSlideIndex)
      ensures activeImage == old(activeImage) && leavingImage == old(leavingImage)
      ensures currentAnimation == old(currentAnimation) && isTransitioning == old(isTransitioning)
      ensures showActive == old(showActive) && swap == old(swap)
      ensures pendingShows == old(pendingShows) && clearPending == old(clearPending)
    {
      isPaused := !isPaused;
    }

    /**
     * The swap, 100 ms after the trigger: the captured target becomes the
     * active image and the current index, the captured animation becomes the
     * current one, and the show is scheduled. This is the only step that
     * changes the index.
     */
    method Phase2()
      requires Valid() && swap.Some?
      modifies this
      ensures Valid()
      ensures currentSlideIndex == old(swap.value.target)
      ensures activeImage == Some(old(swap.value.image)) && activeImage == Some(images[currentSlideIndex])
      ensures currentAnimation == old(swap.value.animation) && currentAnimation in Palette
      ensures swap == None && pendingShows == old(pendingShows) + 1
      ensures images == old(images) && isPaused == old(isPaused)
      ensures leavingImage == old(leavingImage) && isTransitioning == old(isTransitioning)
      ensures showActive == old(showActive) && clearPending == old(clearPending)
    {
      activeImage := Some(swap.value.image);
      currentSlideIndex := swap.value.target;
      currentAnimation := swap.value.animation;
      swap := None;
      pendingShows := pendingShows + 1;
    }

    /**
     * A show, 50 ms after its swap: the active image gets its "active" class,
     * starting its animation. Nothing orders it against the clean-up, so it
     * may also fire after the clean-up, even during a later transition.
     */
    method Phase3()
      requires Valid() && pendingShows > 0
      modifies this
      ensures Valid()
      ensures showActive && pendingShows == old(pendingShows) - 1
      ensures images == old(images) && isPaused == old(isPaused)
      ensures currentSlideIndex == old(currentSlideIndex) && activeImage == old(activeImage)
      ensures leavingImage == old(leavingImage) && currentAnimation == old(currentAnimation)
      ensures isTransitioning == old(isTransitioning)
      ensures swap == old(swap) && clearPending == old(clearPending)
    {
      showActive := true;
      pendingShows := pendingShows - 1;
    }

    /**
     * The clean-up, 1200 ms after the trigger (transition duration 1000 ms
     * plus 200 ms), always after the swap of the same trigger: the leaving
     * image is removed and the in-flight flag cleared, so a new trigger is
     * accepted again, whether or not the show has fired.
     */
    method Phase4()
      requires Valid() && clearPending && swap == None
      modifies this
      ensures Valid()
      ensures leavingImage == None && !isTransitioning && !clearPending
      ensures images == old(images) && isPaused == old(isPaused)
      ensures currentSlideIndex == old(currentSlideIndex) && activeImage == old(activeImage)
      ensures showActive == old(showActive) && currentAnimation == old(currentAnimation)
      ensures swap == old(swap) && pendingShows == old(pendingShows)
    {
      leavingImage := None;
      isTransitioning := false;
      clearPending := false;
    }
  }
}
