/**
 * The lightbox of `PhotoGallery` and the slide index of `PhotoCarousel`
 * (src/components/ui/photo-gallery.tsx). React state setters become field updates; an index
 * outside the image list reads as an absent image, as `images[i]` gives `undefined` in
 * JavaScript.
 */
module Gallery {
  import opened Common

  datatype GalleryImage = GalleryImage(id: int, src: string, title: string, category: Option<string>)

  /** `images[i]`: the image, or nothing when `i` is out of range. */
  function ImageAt(images: seq<GalleryImage>, i: int): (r: Option<GalleryImage>)
    ensures r.Some? <==> 0 <= i < |images|
    ensures r.Some? ==> r.value == images[i]
  {
    if 0 <= i < |images| then Some(images[i]) else None
  }

  /** The index `goToPrevious` moves to: 0 wraps to the last index. */
  function PreviousIndex(i: int, n: int): int {
    if i == 0 then n - 1 else i - 1
  }

  /** The index `goToNext` moves to: the last index wraps to 0. */
  function NextIndex(i: int, n: int): int {
    if i == n - 1 then 0 else i + 1
  }

  /** On a non-empty list both moves stay in range and wrap at the ends. */
  lemma IndexMovesInRange(i: int, n: int)
    requires 0 <= i < n
    ensures 0 <= NextIndex(i, n) < n && 0 <= PreviousIndex(i, n) < n
    ensures NextIndex(i, n) == (if i == n - 1 then 0 else i + 1)
    ensures PreviousIndex(i, n) == (if i == 0 then n - 1 else i - 1)
  {
  }

  /** Next then previous, and previous then next, return to the start. */
  lemma IndexMovesInverse(i: int, n: int)
    requires 0 <= i < n
    ensures PreviousIndex(NextIndex(i, n), n) == i
    ensures NextIndex(PreviousIndex(i, n), n) == i
  {
  }

  /** An empty list has no range to wrap in: next from 0 reads index 1, previous reads -1. */
  lemma EmptyGalleryMoves(images: seq<GalleryImage>)
    requires images == []
    ensures NextIndex(0, |images|) == 1 && ImageAt(images, NextIndex(0, |images|)) == None
    ensures PreviousIndex(0, |images|) == -1 && ImageAt(images, PreviousIndex(0, |images|)) == None
  {
  }

  /** `k` presses of next. */
  function NextTimes(i: int, n: int, k: nat): int
    decreases k
  {
    if k == 0 then i else NextIndex(NextTimes(i, n, k - 1), n)
  }

  /** Up to one full turn, `k` presses of next from `i` land `k` places on, wrapping once. */
  lemma {:induction false} NextTimesWraps(i: int, n: int, k: nat)
    requires 0 <= i < n && k <= n
    ensures NextTimes(i, n, k) == if i + k < n then i + k else i + k - n
    decreases k
  {
    if k > 0 {
      NextTimesWraps(i, n, k - 1);
    }
  }

  /** Pressing next once per image comes back to the start. */
  lemma FullCycle(i: int, n: int)
    requires 0 <= i < n
    ensures NextTimes(i, n, n) == i
  {
    NextTimesWraps(i, n, n);
  }

  /** `PhotoGallery`: the open image, if any, and the current index. */
  class PhotoGallery {
    const images: seq<GalleryImage>
    var selectedImage: Option<GalleryImage>
    var currentIndex: int

    /** The open image is the one at the current index. */
    predicate Showing()
      reads this
    {
      selectedImage.Some? ==> ImageAt(images, currentIndex) == selectedImage
    }

    /** The first render: nothing open, index 0. */
    constructor(images: seq<GalleryImage>)
      ensures this.images == images && selectedImage == None && currentIndex == 0 && Showing()
    {
      this.images := images;
      selectedImage := None;
      currentIndex := 0;
    }

    /** `openLightbox(image, index)`; the grid passes each image with its own index. */
    method OpenLightbox(image: GalleryImage, index: int)
      modifies this
      ensures selectedImage == Some(image) && currentIndex == index
      ensures ImageAt(images, index) == Some(image) ==> Showing()
    {
      selectedImage := Some(image);
      currentIndex := index;
    }

    /** `closeLightbox`: closes the lightbox and keeps the index. */
    method CloseLightbox()
      modifies this
      ensures selectedImage == None && currentIndex == old(currentIndex) && Showing()
    {
      selectedImage := None;
    }

    method GoToPrevious()
      modifies this
      ensures currentIndex == PreviousIndex(old(currentIndex), |images|)
      ensures selectedImage == ImageAt(images, currentIndex) && Showing()
      ensures 0 <= old(currentIndex) < |images| ==> 0 <= currentIndex < |images| && selectedImage.Some?
    {
      var newIndex := if currentIndex == 0 then |images| - 1 else currentIndex - 1;
      currentIndex := newIndex;
      selectedImage := ImageAt(images, newIndex);
      if 0 <= old(currentIndex) < |images| {
        IndexMovesInRange(old(currentIndex), |images|);
      }
    }

    method GoToNext()
      modifies this
      ensures currentIndex == NextIndex(old(currentIndex), |images|)
      ensures selectedImage == ImageAt(images, currentIndex) && Showing()
      ensures 0 <= old(currentIndex) < |images| ==> 0 <= currentIndex < |images| && selectedImage.Some?
    {
      var newIndex := if currentIndex == |images| - 1 then 0 else currentIndex + 1;
      currentIndex := newIndex;
      selectedImage := ImageAt(images, newIndex);
      if 0 <= old(currentIndex) < |images| {
        IndexMovesInRange(old(currentIndex), |images|);
      }
    }

    /** A thumbnail click: the strip passes each image with its own index. */
    method SelectThumbnail(index: int, image: GalleryImage)
      modifies this
      ensures currentIndex == index && selectedImage == Some(image)
      ensures ImageAt(images, index) == Some(image) ==> Showing()
    {
      currentIndex := index;
      selectedImage := Some(image);
    }
  }

  /** `PhotoCarousel`: the index of the slide shown. */
  class PhotoCarousel {
    const images: seq<GalleryImage>
    var index: int

    constructor(images: seq<GalleryImage>)
      ensures this.images == images && index == 0
    {
      this.images := images;
      index := 0;
    }

    method GoToPrevious()
      modifies this
      ensures index == PreviousIndex(old(index), |images|)
      ensures 0 <= old(index) < |images| ==> 0 <= index < |images|
    {
      index := if index == 0 then |images| - 1 else index - 1;
      if 0 <= old(index) < |images| {
        IndexMovesInRange(old(index), |images|);
      }
    }

    method GoToNext()
      modifies this
      ensures index == NextIndex(old(index), |images|)
      ensures 0 <= old(index) < |images| ==> 0 <= index < |images|
    {
      index := if index == |images| - 1 then 0 else index + 1;
      if 0 <= old(index) < |images| {
        IndexMovesInRange(old(index), |images|);
      }
    }

    /** A progress dot: the dots are numbered 0 .. |images| - 1. */
    method SelectDot(i: int)
      modifies this
      ensures index == i
    {
      index := i;
    }
  }
}
