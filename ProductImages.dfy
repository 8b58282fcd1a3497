/**
 * The product image carousel: the image list, and the current index stepped
 * cyclically by the arrows or set by a thumbnail.
 */
module ProductImages {
  import opened Wrappers
  import opened Types

  const Placeholder: string := "/images/placeholder.png"

  /** `variant_images ?? [image ?? placeholder]`. */
  function Images(p: Product): (r: seq<string>)
    ensures p.variantImages.Some? ==> r == p.variantImages.value
    ensures p.variantImages.None? ==> r == [p.image.GetOr(Placeholder)]
  {
    p.variantImages.GetOr([p.image.GetOr(Placeholder)])
  }

  /** `(i + 1) % n`: the following index, wrapping from the last to the first. */
  function NextIndex(i: nat, n: nat): (r: nat)
    requires i < n
    ensures r < n
    ensures i + 1 < n ==> r == i + 1
    ensures i + 1 == n ==> r == 0
  {
    (i + 1) % n
  }

  /** `(i - 1 + n) % n`: the preceding index, wrapping from the first to the last. */
  function PrevIndex(i: nat, n: nat): (r: nat)
    requires i < n
    ensures r < n
    ensures i > 0 ==> r == i - 1
    ensures i == 0 ==> r == n - 1
  {
    (i - 1 + n) % n
  }

  lemma PrevUndoesNext(i: nat, n: nat)
    requires i < n
    ensures PrevIndex(NextIndex(i, n), n) == i
    ensures NextIndex(PrevIndex(i, n), n) == i
  {
  }

  /** The index after `k` presses of the right arrow. */
  function NextTimes(i: nat, k: nat, n: nat): (r: nat)
    requires i < n
    ensures r < n
  {
    if k == 0 then i else NextIndex(NextTimes(i, k - 1, n), n)
  }

  /** Up to `n` presses of the right arrow move `k` images on, wrapping once. */
  lemma {:induction false} NextTimesIsShift(i: nat, k: nat, n: nat)
    requires i < n && k <= n
    ensures NextTimes(i, k, n) == if i + k < n then i + k else i + k - n
  {
    if k > 0 {
      NextTimesIsShift(i, k - 1, n);
    }
  }

  /** `n` presses of the right arrow come back to the starting image. */
  lemma NextCycles(i: nat, n: nat)
    requires i < n
    ensures NextTimes(i, n, n) == i
  {
    NextTimesIsShift(i, n, n);
  }

  class Carousel {
    const images: seq<string>
    var index: nat

    /** The index points at an image, or is 0 when there is none. */
    predicate Valid()
      reads this
    {
      if images == [] then index == 0 else index < |images|
    }

    /** Arrows and thumbnails are rendered only for more than one image. */
    predicate ShowsControls()
    {
      |images| > 1
    }

    constructor (p: Product)
      ensures Valid()
      ensures images == Images(p) && index == 0
    {
      images := Images(p);
      index := 0;
    }

    /** The left arrow. */
    method Prev()
      requires Valid() && ShowsControls()
      modifies this
      ensures Valid()
      ensures index == PrevIndex(old(index), |images|)
    {
      index := (index - 1 + |images|) % |images|;
    }

    /** The right arrow. */
    method Next()
      requires Valid() && ShowsControls()
      modifies this
      ensures Valid()
      ensures index == NextIndex(old(index), |images|)
    {
      index := (index + 1) % |images|;
    }

    /** A click on thumbnail `i`. */
    method Select(i: nat)
      requires Valid() && ShowsControls() && i < |images|
      modifies this
      ensures Valid()
      ensures index == i
    {
      index := i;
    }

    /** The image shown large: none only when the list is empty. */
    function Current(): (img: Option<string>)
      requires Valid()
      reads this
      ensures images != [] ==> img == Some(images[index])
      ensures images == [] ==> img == None
    {
      if images == [] then None else Some(images[index])
    }
  }
}
