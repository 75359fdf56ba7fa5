/** The fullscreen image viewer (src/app/eventos/FullscreenViewer.tsx): it
    opens on the clicked image and pages cyclically through the album. */
module Viewer {
  import opened Cyclic

  /** `images.indexOf(image)`: the first position holding `image`, or -1. */
  function IndexOfImage(images: seq<string>, image: string): (r: int)
    ensures r == -1 <==> image !in images
    ensures r != -1 ==> 0 <= r < |images| && images[r] == image && image !in images[..r]
  {
    if images == [] then -1
    else if images[0] == image then 0
    else
      var k := IndexOfImage(images[1..], image);
      assert k != -1 ==> images[..k + 1] == [images[0]] + images[1..][..k];
      if k == -1 then -1 else k + 1
  }

  /** The lazy useState initialiser: the clicked image's first position, or 0. */
  function InitialIndex(images: seq<string>, image: string): (r: nat)
    ensures image in images ==> r < |images| && images[r] == image && image !in images[..r]
    ensures image !in images ==> r == 0
  {
    var index := IndexOfImage(images, image);
    if index != -1 then index else 0
  }

  class FullscreenViewer {
    const images: seq<string>
    var currentIndex: Num

    /** Any non-empty album keeps the cursor on one of its images. */
    ghost predicate Valid()
      reads this
    {
      |images| > 0 ==> InRange(currentIndex, |images|)
    }

    constructor (image: string, images: seq<string>)
      ensures this.images == images && currentIndex == Int(InitialIndex(images, image))
      ensures Valid()
    {
      this.images := images;
      currentIndex := Int(InitialIndex(images, image));
    }

    method HandleNext()
      requires Valid()
      modifies this
      ensures Valid() && currentIndex == Next(old(currentIndex), |images|)
    {
      currentIndex := Next(currentIndex, |images|);
    }

    method HandlePrev()
      requires Valid()
      modifies this
      ensures Valid() && currentIndex == Prev(old(currentIndex), |images|)
    {
      currentIndex := Prev(currentIndex, |images|);
    }

    /** Escape asks the parent to close (`onClose()`), the arrows page, and any
        other key does nothing. */
    method HandleKeyDown(key: string) returns (closeRequested: bool)
      requires Valid()
      modifies this
      ensures Valid()
      ensures closeRequested <==> key == "Escape"
      ensures currentIndex == (if key == "ArrowRight" then Next(old(currentIndex), |images|)
                               else if key == "ArrowLeft" then Prev(old(currentIndex), |images|)
                               else old(currentIndex))
    {
      closeRequested := false;
      if key == "Escape" {
        closeRequested := true;
      } else if key == "ArrowRight" {
        HandleNext();
      } else if key == "ArrowLeft" {
        HandlePrev();
      }
    }

    /** The caption's first number, `currentIndex + 1`, shown over `images.length`. */
    function Position(): (p: int)
      reads this
      requires Valid() && |images| > 0
      ensures 1 <= p <= |images|
    {
      currentIndex.value + 1
    }
  }
}
