/**
 * The home page slider: a current slide index over a fixed list of five
 * slides, moved by the arrows, by the five-second timer (a call of
 * `Next`) and by the dots.
 */
module HeroSlider {
  import Cyclic

  datatype Slide = Slide(title: string, subtitle: string)

  const Slides: seq<Slide> := [
    Slide("Ancient Healing Wisdom", "Rooted in centuries of Tibetan medical tradition"),
    Slide("Natural Remedies", "Herbal formulations crafted with care and precision"),
    Slide("Expert Practitioners", "Guided by experienced Tibetan medicine doctors"),
    Slide("Traditional Medicines", "Time-tested herbal compounds for holistic wellness"),
    Slide("Healing Gardens", "Where nature and medicine come together")
  ]

  const SlideCount: nat := |Slides|

  /** `(p + 1) % slides.length`: the following slide, the first after the last. */
  function NextIndex(p: int): (r: int)
    requires 0 <= p < SlideCount
    ensures 0 <= r < SlideCount
    ensures p < SlideCount - 1 ==> r == p + 1
    ensures p == SlideCount - 1 ==> r == 0
  {
    Cyclic.Rem(p + 1, SlideCount)
  }

  /** `(p - 1 + slides.length) % slides.length`: the preceding slide, the last before the first. */
  function PrevIndex(p: int): (r: int)
    requires 0 <= p < SlideCount
    ensures 0 <= r < SlideCount
    ensures p > 0 ==> r == p - 1
    ensures p == 0 ==> r == SlideCount - 1
  {
    Cyclic.Rem(p - 1 + SlideCount, SlideCount)
  }

  /** `prev` undoes `next` and `next` undoes `prev`. */
  lemma PrevNextInverse(p: int)
    requires 0 <= p < SlideCount
    ensures PrevIndex(NextIndex(p)) == p
    ensures NextIndex(PrevIndex(p)) == p
  {
  }

  /** `next` applied `k` times. */
  function NextTimes(p: int, k: nat): (r: int)
    requires 0 <= p < SlideCount
    ensures 0 <= r < SlideCount
  {
    if k == 0 then p else NextIndex(NextTimes(p, k - 1))
  }

  /** `k` steps forward land `k` places further on, modulo the slide count. */
  lemma {:induction false} NextTimesAdvances(p: int, k: nat)
    requires 0 <= p < SlideCount
    ensures NextTimes(p, k) == (p + k) % SlideCount
  {
    if k > 0 {
      NextTimesAdvances(p, k - 1);
      StepMod(p + k - 1);
    }
  }

  /** One step forward from the slide at `q` modulo the count is the slide at `q + 1` modulo the count. */
  lemma StepMod(q: nat)
    ensures NextIndex(q % SlideCount) == (q + 1) % SlideCount
  {
    assert SlideCount == 5;
    var d := q / 5;
    assert q == 5 * d + q % 5;
    if q % 5 < 4 {
      assert q + 1 == 5 * d + (q % 5 + 1);
    } else {
      assert q + 1 == 5 * (d + 1);
    }
  }

  /** Five steps forward return to the starting slide. */
  lemma FullCycle(p: int)
    requires 0 <= p < SlideCount
    ensures NextTimes(p, SlideCount) == p
  {
    NextTimesAdvances(p, SlideCount);
  }

  class Slider {
    var current: int

    ghost predicate Valid()
      reads this
    {
      0 <= current < SlideCount
    }

    constructor ()
      ensures Valid() && current == 0
    {
      current := 0;
    }

    /** The slide shown: always an element of the list. */
    function CurrentSlide(): (s: Slide)
      reads this
      requires Valid()
      ensures s in Slides
    {
      Slides[current]
    }

    /** The right arrow and the timer tick. */
    method Next()
      requires Valid()
      modifies this
      ensures Valid() && current == NextIndex(old(current))
    {
      current := NextIndex(current);
    }

    /** The left arrow. */
    method Prev()
      requires Valid()
      modifies this
      ensures Valid() && current == PrevIndex(old(current))
    {
      current := PrevIndex(current);
    }

    /** Dot `i`; there is one dot per slide. */
    method GoTo(i: int)
      requires 0 <= i < SlideCount
      modifies this
      ensures Valid() && current == i
    {
      current := i;
    }
  }
}
