/**
 * The testimonial carousel: an index into a fixed list of four testimonials,
 * moved by the previous/next buttons (wrapping around) and by the dots, and
 * locked while a slide animation is pending. The 500 ms timer that ends an
 * animation is the explicit event `AnimationDone`.
 */
module Testimonials {

  datatype Testimonial = Testimonial(name: string, position: string)

  const TESTIMONIALS: seq<Testimonial> := [
    Testimonial("Sarah Johnson", "IBS Patient"),
    Testimonial("Michael Rodriguez", "GERD Patient"),
    Testimonial("Jennifer Lee", "Colonoscopy Patient"),
    Testimonial("David Thompson", "Crohn's Disease Patient")
  ]

  /** `handleNext`'s update: the last index wraps to the first. */
  function NextIndex(i: nat): (j: nat)
    requires i < |TESTIMONIALS|
    ensures j < |TESTIMONIALS|
    ensures j == (i + 1) % |TESTIMONIALS|
  {
    if i == |TESTIMONIALS| - 1 then 0 else i + 1
  }

  /** `handlePrev`'s update: the first index wraps to the last. */
  function PrevIndex(i: nat): (j: nat)
    requires i < |TESTIMONIALS|
    ensures j < |TESTIMONIALS|
    ensures j == (i + |TESTIMONIALS| - 1) % |TESTIMONIALS|
  {
    if i == 0 then |TESTIMONIALS| - 1 else i - 1
  }

  /** Previous undoes next and next undoes previous. */
  lemma PrevNextInverse(i: nat)
    requires i < |TESTIMONIALS|
    ensures PrevIndex(NextIndex(i)) == i
    ensures NextIndex(PrevIndex(i)) == i
  {
  }

  /** The index after `k` presses of next. */
  function NextTimes(i: nat, k: nat): (j: nat)
    requires i < |TESTIMONIALS|
    ensures j < |TESTIMONIALS|
  {
    if k == 0 then i else NextIndex(NextTimes(i, k - 1))
  }

  /** `k` presses of next advance the index by `k`, modulo the length. */
  lemma {:induction false} NextTimesModulo(i: nat, k: nat)
    requires i < |TESTIMONIALS|
    ensures NextTimes(i, k) == (i + k) % |TESTIMONIALS|
  {
    if k > 0 {
      NextTimesModulo(i, k - 1);
    }
  }

  /** As many presses of next as there are testimonials return to the start. */
  lemma FullCycle(i: nat)
    requires i < |TESTIMONIALS|
    ensures NextTimes(i, |TESTIMONIALS|) == i
  {
    NextTimesModulo(i, |TESTIMONIALS|);
  }

  class Carousel {
    var activeIndex: nat
    var animating: bool

    /** The shown testimonial always exists. */
    ghost predicate Valid()
      reads this
    {
      activeIndex < |TESTIMONIALS|
    }

    constructor ()
      ensures activeIndex == 0 && !animating
      ensures Valid()
    {
      activeIndex := 0;
      animating := false;
    }

    /** The testimonial on display. */
    method Current() returns (t: Testimonial)
      requires Valid()
      ensures t == TESTIMONIALS[activeIndex]
      ensures t in TESTIMONIALS
    {
      t := TESTIMONIALS[activeIndex];
    }

    /** `handlePrev`: ignored while animating; otherwise moves back one,
        wrapping from the first to the last, and starts the animation. */
    method HandlePrev()
      requires Valid()
      modifies this
      ensures Valid()
      ensures old(animating) ==> unchanged(this)
      ensures !old(animating) ==> activeIndex == PrevIndex(old(activeIndex)) && animating
    {
      if animating {
        return;
      }
      animating := true;
      activeIndex := PrevIndex(activeIndex);
    }

    /** `handleNext`: ignored while animating; otherwise moves on one,
        wrapping from the last to the first, and starts the animation. */
    method HandleNext()
      requires Valid()
      modifies this
      ensures Valid()
      ensures old(animating) ==> unchanged(this)
      ensures !old(animating) ==> activeIndex == NextIndex(old(activeIndex)) && animating
    {
      if animating {
        return;
      }
      animating := true;
      activeIndex := NextIndex(activeIndex);
    }

    /** A dot's `onClick`: the dots are drawn one per testimonial, so `index`
        is always in range; ignored while animating, otherwise jumps there. */
    method SelectDot(index: nat)
      requires Valid() && index < |TESTIMONIALS|
      modifies this
      ensures Valid()
      ensures old(animating) ==> unchanged(this)
      ensures !old(animating) ==> activeIndex == index && animating
    {
      if animating {
        return;
      }
      animating := true;
      activeIndex := index;
    }

    /** The pending timeout fires: the lock is released and the index kept. */
    method AnimationDone()
      modifies this
      ensures !animating && activeIndex == old(activeIndex)
    {
      animating := false;
    }
  }

  /** Next, the animation ending, then previous returns to the testimonial
      shown before, with the second animation still pending. */
  method NextThenPrev(c: Carousel)
    requires c.Valid() && !c.animating
    modifies c
    ensures c.Valid() && c.activeIndex == old(c.activeIndex) && c.animating
  {
    c.HandleNext();
    c.AnimationDone();
    c.HandlePrev();
    PrevNextInverse(old(c.activeIndex));
  }

  /** Pressing next while the first press is still animating is lost. */
  method DoubleNextDuringAnimation(c: Carousel)
    requires c.Valid() && !c.animating
    modifies c
    ensures c.Valid() && c.activeIndex == NextIndex(old(c.activeIndex))
  {
    c.HandleNext();
    c.HandleNext();
  }

  /** From a fresh carousel, one full round of next presses, each followed by
      its timeout, shows the first testimonial again. */
  method RoundTrip() returns (shown: Testimonial)
    ensures shown == TESTIMONIALS[0]
  {
    var c := new Carousel();
    c.HandleNext(); c.AnimationDone();
    c.HandleNext(); c.AnimationDone();
    c.HandleNext(); c.AnimationDone();
    c.HandleNext(); c.AnimationDone();
    assert c.activeIndex == NextTimes(0, 4);
    FullCycle(0);
    shown := c.Current();
  }
}
