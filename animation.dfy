/** The fixed palette of entry animations the slideshow chooses from. */
module Animation {

  /** The nine animation classes, in the order Slideshow.js lists them. */
  const Palette: seq<string> := [
    "slide-in", "fade-in", "from-left", "from-top", "from-bottom",
    "zoom-in", "zoom-out", "rotate-in", "flip-in"
  ]

  /** The animation the slideshow shows at first, before any transition. */
  const InitialAnimation: string := "slide-in"

  /**
   * The animation picked for a transition. `k` stands for
   * `Math.floor(Math.random() * 9)`, an integer in [0, 9).
   */
  function ChooseAnimation(k: nat): (a: string)
    requires k < |Palette|
    ensures a in Palette
  {
    Palette[k]
  }

  /** Every palette entry is reachable by some choice, so none is excluded. */
  lemma ChooseAnimationCovers(a: string)
    requires a in Palette
    ensures exists k :: 0 <= k < |Palette| && ChooseAnimation(k) == a
  {
    var k :| 0 <= k < |Palette| && Palette[k] == a;
    assert ChooseAnimation(k) == a;
  }
}
