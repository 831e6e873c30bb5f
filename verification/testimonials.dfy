/** The testimonials carousel: one testimonial shown at a time, step handlers `nextSlide` and
    `prevSlide` that move forward and back around the list, and one dot per testimonial that
    jumps to it. Only the dots are wired to controls; the step handlers are defined but no
    control calls them. */
module Carousel {

  datatype Testimonial = Testimonial(id: nat, author: string, image: string)

  /** The fixed list the home page shows (the quotes themselves are left out). */
  const PageTestimonials: seq<Testimonial> := [
    Testimonial(1, "Mohan Chandolu", "MohanChandolu.jpg"),
    Testimonial(2, "Raj Patel", "/images/testimonial2.jpg"),
    Testimonial(3, "Anita Desai", "/images/testimonial3.jpg")
  ]

  // Both operands of `%` below are non-negative, where JavaScript's truncating remainder
  // and Dafny's Euclidean one agree.

  /** `nextSlide`: `(prev + 1) % n`. */
  function NextIndex(i: nat, n: nat): (j: nat)
    requires i < n
    ensures j < n
    ensures j == if i == n - 1 then 0 else i + 1
  {
    (i + 1) % n
  }

  /** `prevSlide`: `(prev - 1 + n) % n`. */
  function PrevIndex(i: nat, n: nat): (j: nat)
    requires i < n
    ensures j < n
    ensures j == if i == 0 then n - 1 else i - 1
  {
    (i - 1 + n) % n
  }

  /** `prevSlide` undoes `nextSlide`, and `nextSlide` undoes `prevSlide`. */
  lemma PrevUndoesNext(i: nat, n: nat)
    requires i < n
    ensures PrevIndex(NextIndex(i, n), n) == i
    ensures NextIndex(PrevIndex(i, n), n) == i
  {
  }

  /** The slide after `k` calls of `nextSlide`. */
  function Advance(i: nat, n: nat, k: nat): (j: nat)
    requires i < n
    ensures j < n
  {
    if k == 0 then i else NextIndex(Advance(i, n, k - 1), n)
  }

  /** `k` calls of `nextSlide` move `k` places on, wrapping once past the last slide. */
  lemma {:induction false} AdvanceMoves(i: nat, n: nat, k: nat)
    requires i < n && k <= n
    ensures Advance(i, n, k) == if i + k < n then i + k else i + k - n
  {
    if k > 0 {
      AdvanceMoves(i, n, k - 1);
    }
  }

  /** `a` calls of `nextSlide` and then `b` more are `a + b` calls. */
  lemma {:induction false} AdvanceAdds(i: nat, n: nat, a: nat, b: nat)
    requires i < n
    ensures Advance(i, n, a + b) == Advance(Advance(i, n, a), n, b)
  {
    if b > 0 {
      AdvanceAdds(i, n, a, b - 1);
    }
  }

  /** As many calls of `nextSlide` as there are testimonials come back to the slide shown, and
      so the slide shown repeats with that period. */
  lemma FullCycle(i: nat, n: nat, k: nat)
    requires i < n
    ensures Advance(i, n, n) == i
    ensures Advance(i, n, k + n) == Advance(i, n, k)
  {
    AdvanceMoves(i, n, n);
    AdvanceAdds(i, n, n, k);
    assert n + k == k + n;
  }

  /** With the three testimonials of the page, three calls of `nextSlide` come back. */
  lemma ThreeClicksComeBack(i: nat)
    requires i < |PageTestimonials|
    ensures Advance(i, |PageTestimonials|, 3) == i
  {
    FullCycle(i, |PageTestimonials|, 0);
  }

  /** Which of the `n` dots are drawn active while slide `i` is shown. */
  function Dots(i: nat, n: nat): (dots: seq<bool>)
    ensures |dots| == n
    ensures forall k :: 0 <= k < n ==> dots[k] == (k == i)
  {
    if n == 0 then [] else Dots(i, n - 1) + [n - 1 == i]
  }

  /** Exactly one dot is active, the one of the slide shown. */
  lemma {:induction false} OneActiveDot(i: nat, n: nat)
    ensures multiset(Dots(i, n))[true] == if i < n then 1 else 0
    ensures i < n ==> Dots(i, n)[i]
  {
    if n > 0 {
      OneActiveDot(i, n - 1);
      assert Dots(i, n) == Dots(i, n - 1) + [n - 1 == i];
      assert multiset(Dots(i, n)) == multiset(Dots(i, n - 1)) + multiset{n - 1 == i};
    }
  }

  class Testimonials {
    const testimonials: seq<Testimonial>
    var currentSlide: nat

    ghost predicate Valid()
      reads this
    {
      currentSlide < |testimonials|
    }

    constructor(list: seq<Testimonial>)
      requires |list| > 0
      ensures Valid() && testimonials == list && currentSlide == 0
    {
      testimonials := list;
      currentSlide := 0;
    }

    method NextSlide()
      requires Valid()
      modifies this
      ensures Valid() && currentSlide == NextIndex(old(currentSlide), |testimonials|)
    {
      currentSlide := (currentSlide + 1) % |testimonials|;
    }

    method PrevSlide()
      requires Valid()
      modifies this
      ensures Valid() && currentSlide == PrevIndex(old(currentSlide), |testimonials|)
    {
      currentSlide := (currentSlide - 1 + |testimonials|) % |testimonials|;
    }

    /** `goToSlide`, called by the dot of slide `index`. */
    method GoToSlide(index: nat)
      requires Valid() && index < |testimonials|
      modifies this
      ensures Valid() && currentSlide == index
    {
      currentSlide := index;
    }

    /** The testimonial on the card. */
    function Shown(): Testimonial
      requires Valid()
      reads this
    {
      testimonials[currentSlide]
    }
  }
}
