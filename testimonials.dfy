/** The testimonial carousel: an index into a fixed list of five reviews, a
    direction that tells the slide animation where to come from, and an
    autoplay flag. While autoplay is on, a 5000 ms interval advances the
    index; the previous and next buttons and the dots switch autoplay off,
    and nothing switches it on again. */
module Testimonials {

  /** The number of reviews in the list. */
  const TestimonialCount: nat := 5

  /** `(prev + 1) % testimonials.length`. The operand is never negative, so
      JavaScript's truncating `%` and Dafny's agree. */
  function Next(i: nat): (r: nat)
    requires i < TestimonialCount
    ensures r < TestimonialCount
    ensures r == if i == TestimonialCount - 1 then 0 else i + 1
  {
    (i + 1) % TestimonialCount
  }

  /** `(prev - 1 + testimonials.length) % testimonials.length`. The operand
      is at least 4, so JavaScript's truncating `%` and Dafny's agree. */
  function Previous(i: nat): (r: nat)
    requires i < TestimonialCount
    ensures r < TestimonialCount
    ensures r == if i == 0 then TestimonialCount - 1 else i - 1
  {
    (i - 1 + TestimonialCount) % TestimonialCount
  }

  /** The index after `k` steps forward (ticks or presses of "next"). */
  function Advance(i: nat, k: nat): (r: nat)
    requires i < TestimonialCount
    ensures r < TestimonialCount
  {
    if k == 0 then i else Next(Advance(i, k - 1))
  }

  /** The direction a dot click sets: forward only for a dot to the right of
      the current review; the current dot itself counts as backward. */
  function DotDirection(target: nat, current: nat): (d: int)
    ensures d == 1 || d == -1
  {
    if target > current then 1 else -1
  }

  /** `slideVariants.enter(direction).x` */
  function EnterOffset(direction: int): (x: int)
    ensures x == 100 || x == -100
  {
    if direction > 0 then 100 else -100
  }

  /** `slideVariants.exit(direction).x` */
  function ExitOffset(direction: int): (x: int)
    ensures x == 100 || x == -100
  {
    if direction > 0 then -100 else 100
  }

  /** "previous" undoes "next" and "next" undoes "previous". */
  lemma NextPreviousRoundTrip(i: nat)
    requires i < TestimonialCount
    ensures Previous(Next(i)) == i
    ensures Next(Previous(i)) == i
  {
  }

  /** `k` steps forward add `k` to the index, modulo the number of reviews. */
  lemma {:induction false} AdvanceIsModularSum(i: nat, k: nat)
    requires i < TestimonialCount
    ensures Advance(i, k) == (i + k) % TestimonialCount
  {
    if k > 0 {
      AdvanceIsModularSum(i, k - 1);
    }
  }

  /** Five steps forward come back to the same review. */
  lemma FullCycle(i: nat)
    requires i < TestimonialCount
    ensures Advance(i, TestimonialCount) == i
  {
    AdvanceIsModularSum(i, TestimonialCount);
  }

  /** A dot click goes forward exactly when the chosen dot lies to the right,
      and the slide leaves on the side opposite to the one it entered from. */
  lemma DotDirectionAndOffsets(target: nat, current: nat)
    ensures DotDirection(target, current) == 1 <==> target > current
    ensures DotDirection(target, current) == -1 <==> target <= current
    ensures EnterOffset(DotDirection(target, current)) == (if target > current then 100 else -100)
  {
  }

  /** The exit offset is always the negation of the enter offset, and the
      enter offset is +100 exactly for a positive direction. */
  lemma ExitMirrorsEnter(direction: int)
    ensures ExitOffset(direction) == -EnterOffset(direction)
    ensures EnterOffset(direction) == 100 <==> direction > 0
  {
  }

  class Carousel {
    var currentIndex: nat
    var isAutoPlaying: bool
    var direction: int

    /** The index points into the list and the direction is forward or
        backward. */
    ghost predicate Valid()
      reads this
    {
      currentIndex < TestimonialCount && (direction == 1 || direction == -1)
    }

    constructor ()
      ensures Valid()
      ensures currentIndex == 0 && isAutoPlaying && direction == 1
    {
      currentIndex, isAutoPlaying, direction := 0, true, 1;
    }

    /** `goToPrevious` */
    method GoToPrevious()
      requires Valid()
      modifies this
      ensures Valid()
      ensures currentIndex == Previous(old(currentIndex))
      ensures direction == -1 && !isAutoPlaying
    {
      isAutoPlaying := false;
      direction := -1;
      currentIndex := (currentIndex - 1 + TestimonialCount) % TestimonialCount;
    }

    /** `goToNext` */
    method GoToNext()
      requires Valid()
      modifies this
      ensures Valid()
      ensures currentIndex == Next(old(currentIndex))
      ensures direction == 1 && !isAutoPlaying
    {
      isAutoPlaying := false;
      direction := 1;
      currentIndex := (currentIndex + 1) % TestimonialCount;
    }

    /** The autoplay interval fires. The interval exists only while autoplay
        is on (the effect clears it as soon as the flag goes off). It moves
        like `goToNext` but leaves autoplay on. */
    method Tick()
      requires Valid() && isAutoPlaying
      modifies this`currentIndex, this`direction
      ensures Valid()
      ensures currentIndex == Next(old(currentIndex))
      ensures direction == 1 && isAutoPlaying
    {
      direction := 1;
      currentIndex := (currentIndex + 1) % TestimonialCount;
    }

    /** A click on the dot for review `target`. */
    method SelectDot(target: nat)
      requires Valid() && target < TestimonialCount
      modifies this
      ensures Valid()
      ensures currentIndex == target
      ensures direction == DotDirection(target, old(currentIndex))
      ensures !isAutoPlaying
    {
      isAutoPlaying := false;
      direction := DotDirection(target, currentIndex);
      currentIndex := target;
    }

    /** The horizontal offset the incoming slide starts from. */
    function EnterX(): (x: int)
      reads this
      requires Valid()
      ensures x == 100 <==> direction == 1
      ensures x == -100 <==> direction == -1
    {
      EnterOffset(direction)
    }
  }

  /** Five autoplay ticks from a fresh carousel return to the first review
      with autoplay still on; one press of "next" then "previous" returns too,
      with autoplay off. */
  method CarouselWalk()
    returns (afterTicks: nat, stillPlaying: bool, afterRoundTrip: nat, playingAfterPress: bool)
    ensures afterTicks == 0 && stillPlaying
    ensures afterRoundTrip == 0 && !playingAfterPress
  {
    var c := new Carousel();
    c.Tick();
    c.Tick();
    c.Tick();
    c.Tick();
    c.Tick();
    afterTicks, stillPlaying := c.currentIndex, c.isAutoPlaying;
    c.GoToNext();
    c.GoToPrevious();
    afterRoundTrip, playingAfterPress := c.currentIndex, c.isAutoPlaying;
  }
}
