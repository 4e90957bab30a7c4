/** The image lightbox's carousel: the list of images last opened and the
    index of the one shown. Stepping wraps around in both directions with
    JavaScript's remainder operator and does nothing on an empty list. */
module Lightbox {

  datatype Carousel = Carousel(images: seq<string>, index: int)

  /** JavaScript's `a % n` for a positive divisor: the remainder keeps the
      sign of the dividend (Dafny's `%` never goes negative). Written as
      repeated subtraction towards zero. */
  function JsRem(a: int, n: int): (r: int)
    requires n > 0
    ensures a >= 0 ==> 0 <= r < n
    ensures a < 0 ==> -n < r <= 0
    ensures 0 <= a < 2 * n ==> r == if a < n then a else a - n
    decreases if a >= 0 then a else -a
  {
    if a >= n then JsRem(a - n, n)
    else if a <= -n then JsRem(a + n, n)
    else a
  }

  /** Multiplying by a positive number keeps a strict order at least n apart. */
  lemma MulStep(n: int, x: int, y: int)
    requires n > 0
    ensures x < y ==> n * x + n <= n * y
  {
    if x < y {
      var d := y - x - 1;
      assert n * d >= 0;
      assert n * y == n * x + n * d + n;
    }
  }

  /** Taking the divisor off a dividend keeps its remainder. */
  lemma ModSubDivisor(a: int, n: int)
    requires n > 0 && a >= n
    ensures (a - n) % n == a % n
  {
    var q := (a - n) / n;
    var q' := a / n;
    assert n * q' + a % n == n * (q + 1) + (a - n) % n;
    // Both remainders lie in [0, n), so neither quotient can exceed the other.
    MulStep(n, q', q + 1);
    MulStep(n, q + 1, q');
  }

  /** For a non-negative dividend `JsRem` is the mathematical remainder. */
  lemma {:induction false} JsRemIsRemainder(a: int, n: int)
    requires n > 0 && a >= 0
    ensures JsRem(a, n) == a % n
    decreases a
  {
    if a >= n {
      JsRemIsRemainder(a - n, n);
      ModSubDivisor(a, n);
    }
  }

  /** Negating the dividend negates `JsRem`: the remainder truncates
      towards zero. */
  lemma {:induction false} JsRemIsOdd(a: int, n: int)
    requires n > 0
    ensures JsRem(-a, n) == -JsRem(a, n)
    decreases if a >= 0 then a else -a
  {
    if a >= n {
      JsRemIsOdd(a - n, n);
    } else if a <= -n {
      JsRemIsOdd(a + n, n);
    }
  }

  predicate InRange(c: Carousel) {
    0 <= c.index < |c.images|
  }

  /** The shape every reachable carousel has: nothing to show, or a valid index. */
  predicate Valid(c: Carousel) {
    |c.images| == 0 || InRange(c)
  }

  /** The image the lightbox displays. */
  function Shown(c: Carousel): string
    requires InRange(c)
  {
    c.images[c.index]
  }

  /** `openLightbox(images, startIndex)`: the list and the start index are
      taken as given. */
  function Open(images: seq<string>, start: int): (c: Carousel)
    ensures c.images == images && c.index == start
    ensures 0 <= start < |images| ==> InRange(c) && Shown(c) == images[start]
  {
    Carousel(images, start)
  }

  /** `nextImage()`. */
  function Next(c: Carousel): (r: Carousel)
    ensures r.images == c.images
    ensures |c.images| == 0 ==> r == c
    ensures InRange(c) ==> InRange(r)
    ensures InRange(c) ==> r.index == if c.index + 1 == |c.images| then 0 else c.index + 1
  {
    if |c.images| > 0 then c.(index := JsRem(c.index + 1, |c.images|)) else c
  }

  /** `prevImage()`. */
  function Prev(c: Carousel): (r: Carousel)
    ensures r.images == c.images
    ensures |c.images| == 0 ==> r == c
    ensures InRange(c) ==> InRange(r)
    ensures InRange(c) ==> r.index == if c.index == 0 then |c.images| - 1 else c.index - 1
  {
    if |c.images| > 0 then c.(index := JsRem(c.index - 1 + |c.images|, |c.images|)) else c
  }

  /** Stepping back undoes stepping forward, and the other way round. */
  lemma PrevUndoesNext(c: Carousel)
    requires Valid(c)
    ensures Prev(Next(c)) == c
    ensures Next(Prev(c)) == c
  {
  }

  /** The carousel after `k` presses of "next". */
  function Advance(c: Carousel, k: nat): Carousel
    decreases k
  {
    if k == 0 then c else Advance(Next(c), k - 1)
  }

  /** Pressing `a` times and then `b` times is pressing `a + b` times. */
  lemma {:induction false} AdvanceAdds(c: Carousel, a: nat, b: nat)
    ensures Advance(Advance(c, a), b) == Advance(c, a + b)
    decreases a
  {
    if a > 0 {
      AdvanceAdds(Next(c), a - 1, b);
    }
  }

  /** Up to the end of the list, `k` presses move the index by `k`; the
      press that passes the last image wraps to the first. */
  lemma {:induction false} AdvanceUpToWrap(c: Carousel, k: nat)
    requires InRange(c) && c.index + k <= |c.images|
    ensures Advance(c, k) == c.(index := if c.index + k == |c.images| then 0 else c.index + k)
    decreases k
  {
    if k > 0 {
      AdvanceUpToWrap(Next(c), k - 1);
    }
  }

  /** Pressing "next" once per image comes back to the starting image; on an
      empty list nothing moves at all. */
  lemma AdvanceFullCycle(c: Carousel)
    requires Valid(c)
    ensures Advance(c, |c.images|) == c
  {
    if |c.images| > 0 {
      // Up to the wrap onto the first image, then c.index more presses.
      var n, i := |c.images|, c.index;
      var first := c.(index := 0);
      assert Advance(c, n - i) == first by {
        AdvanceUpToWrap(c, n - i);
      }
      assert Advance(first, i) == c by {
        AdvanceUpToWrap(first, i);
      }
      assert Advance(c, n) == c by {
        AdvanceAdds(c, n - i, i);
      }
    }
  }
}
