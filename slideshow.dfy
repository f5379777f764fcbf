/** The slideshow: one photo at a time, stepped by the arrow buttons, by a dot
    per photo, and by a timer while playing. */
module SlideshowView {
  import opened Wrappers
  import opened Carousel

  class Slideshow {
    /** The `images` prop. */
    var images: seq<string>
    var currentIndex: nat
    var isPlaying: bool

    /** The index names a photo whenever there is one, and is 0 otherwise. */
    ghost predicate Valid()
      reads this
    {
      if |images| == 0 then currentIndex == 0 else currentIndex < |images|
    }

    /** `Slideshow({ images, autoplay = true })`: the first photo, playing
        unless `autoplay` is false. */
    constructor(images: seq<string>, autoplay: Option<bool>)
      ensures Valid()
      ensures this.images == images
      ensures currentIndex == 0
      ensures isPlaying == autoplay.GetOr(true)
    {
      this.images := images;
      currentIndex := 0;
      isPlaying := autoplay.GetOr(true);
    }

    /** Nothing is rendered, so no control can be used, while there is no photo. */
    predicate IsRendered()
      reads this
    {
      |images| > 0
    }

    /** The photo on screen. */
    function CurrentImage(): (r: string)
      reads this
      requires Valid() && IsRendered()
      ensures r in images
    {
      images[currentIndex]
    }

    /** The "next" arrow. */
    method HandleNext()
      requires Valid() && IsRendered()
      modifies this`currentIndex
      ensures Valid()
      ensures currentIndex == Next(old(currentIndex), |images|)
    {
      currentIndex := (currentIndex + 1) % |images|;
    }

    /** The "previous" arrow. */
    method HandlePrev()
      requires Valid() && IsRendered()
      modifies this`currentIndex
      ensures Valid()
      ensures currentIndex == Prev(old(currentIndex), |images|)
    {
      currentIndex := (currentIndex - 1 + |images|) % |images|;
    }

    /** One timer tick: the interval runs only while playing with at least one
        photo, and then moves on exactly as the "next" arrow does. */
    method Tick()
      requires Valid()
      modifies this`currentIndex
      ensures Valid()
      ensures isPlaying && IsRendered() ==> currentIndex == Next(old(currentIndex), |images|)
      ensures !(isPlaying && IsRendered()) ==> currentIndex == old(currentIndex)
    {
      if isPlaying && |images| > 0 {
        HandleNext();
      }
    }

    /** The dot of photo `k`. */
    method GoTo(k: nat)
      requires Valid() && k < |images|
      modifies this`currentIndex
      ensures Valid()
      ensures currentIndex == k
    {
      currentIndex := k;
    }

    /** The play/pause button: flips playing, keeps the photo. */
    method TogglePlay()
      requires Valid()
      modifies this`isPlaying
      ensures Valid()
      ensures isPlaying == !old(isPlaying)
    {
      isPlaying := !isPlaying;
    }

    /** The page re-renders the slideshow with its grown photo list; the index
        state survives the new props. */
    method UpdateImages(newImages: seq<string>)
      requires Valid() && |newImages| >= |images|
      modifies this`images
      ensures Valid()
      ensures images == newImages
    {
      images := newImages;
    }
  }
}
