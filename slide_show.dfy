/**
 * The hero slide show (src/components/SlideShow.tsx): one state cell,
 * `currentSlide`, advanced every five seconds by a modular updater, and the
 * visibility test that shows exactly one of the four slides.
 */
module SlideShow {

  /** `slides` holds four images. */
  const SlideCount: nat := 4

  /** The updater `(prev + 1) % slides.length`. */
  function Next(prev: nat): (n: nat)
    ensures n < SlideCount
    ensures prev < SlideCount ==> n == if prev == SlideCount - 1 then 0 else prev + 1
  {
    (prev + 1) % SlideCount
  }

  /** The slide at `index` gets `opacity-100` exactly when it is the current one. */
  predicate Visible(index: nat, current: nat)
  {
    index == current
  }

  /** The index after k intervals, starting from the initial 0. */
  function AfterTicks(k: nat): nat
  {
    if k == 0 then 0 else Next(AfterTicks(k - 1))
  }

  /** After k advances from 0 the index is k mod 4. */
  lemma {:induction false} AfterTicksMod(k: nat)
    ensures AfterTicks(k) == k % SlideCount
  {
    if k > 0 {
      AfterTicksMod(k - 1);
      var p := (k - 1) % SlideCount;
      assert k - 1 == ((k - 1) / SlideCount) * SlideCount + p;
      assert k == ((k - 1) / SlideCount) * SlideCount + (p + 1);
      if p == SlideCount - 1 {
        assert k == ((k - 1) / SlideCount + 1) * SlideCount;
      }
    }
  }

  /** The slide show comes back to where it was every four intervals. */
  lemma Periodic(k: nat)
    ensures AfterTicks(k + SlideCount) == AfterTicks(k)
  {
    AfterTicksMod(k);
    AfterTicksMod(k + SlideCount);
  }

  /** From a valid index, exactly one of the four slides is visible. */
  lemma ExactlyOneVisible(current: nat)
    requires current < SlideCount
    ensures exists index :: 0 <= index < SlideCount && Visible(index, current)
    ensures forall a, b :: 0 <= a < SlideCount && 0 <= b < SlideCount && Visible(a, current) && Visible(b, current) ==> a == b
  {
    assert Visible(current, current);
  }

  /** The `currentSlide` state cell of the component. */
  class SlideState {
    var currentSlide: nat

    predicate Valid()
      reads this
    {
      currentSlide < SlideCount
    }

    /** `useState(0)`. */
    constructor ()
      ensures currentSlide == 0 && Valid()
    {
      currentSlide := 0;
    }

    /** One firing of the 5-second interval. */
    method Advance()
      requires Valid()
      modifies this
      ensures Valid()
      ensures currentSlide == Next(old(currentSlide))
    {
      currentSlide := Next(currentSlide);
    }
  }
}
