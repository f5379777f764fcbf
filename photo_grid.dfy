/** A category's photo grid with its lightbox: clicking a photo opens it large,
    the arrows step through the category, closing hides the lightbox. */
module PhotoGridView {
  import opened Carousel

  class PhotoGrid {
    /** The `images` prop. */
    var images: seq<string>
    var isLightboxOpen: bool
    var currentImageIndex: nat

    ghost predicate Valid()
      reads this
    {
      if |images| == 0 then currentImageIndex == 0 else currentImageIndex < |images|
    }

    /** The lightbox starts closed on the first photo. */
    constructor(images: seq<string>)
      ensures Valid()
      ensures this.images == images
      ensures !isLightboxOpen && currentImageIndex == 0
    {
      this.images := images;
      isLightboxOpen := false;
      currentImageIndex := 0;
    }

    /** Clicking photo `k` of the grid opens the lightbox on it. */
    method HandleImageClick(k: nat)
      requires Valid() && k < |images|
      modifies this`currentImageIndex, this`isLightboxOpen
      ensures Valid()
      ensures currentImageIndex == k && isLightboxOpen
    {
      currentImageIndex := k;
      isLightboxOpen := true;
    }

    /** The lightbox's "next" arrow (or right-arrow key). */
    method HandleNext()
      requires Valid() && |images| > 0
      modifies this`currentImageIndex
      ensures Valid()
      ensures currentImageIndex == Next(old(currentImageIndex), |images|)
    {
      currentImageIndex := (currentImageIndex + 1) % |images|;
    }

    /** The lightbox's "previous" arrow (or left-arrow key). */
    method HandlePrev()
      requires Valid() && |images| > 0
      modifies this`currentImageIndex
      ensures Valid()
      ensures currentImageIndex == Prev(old(currentImageIndex), |images|)
    {
      currentImageIndex := (currentImageIndex - 1 + |images|) % |images|;
    }

    /** Closing the lightbox (button, Escape, outside click) keeps the index. */
    method Close()
      requires Valid()
      modifies this`isLightboxOpen
      ensures Valid()
      ensures !isLightboxOpen
    {
      isLightboxOpen := false;
    }

    /** The page re-renders the grid with the category's grown photo list; the
        lightbox state survives the new props. */
    method UpdateImages(newImages: seq<string>)
      requires Valid() && |newImages| >= |images|
      modifies this`images
      ensures Valid()
      ensures images == newImages
    {
      images := newImages;
    }
  }
}
