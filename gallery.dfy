/**
 * The gallery page's lightbox: either closed or showing one of the eight
 * images, opened from a thumbnail, stepped through with the arrows and
 * closed with the close button or a click on the backdrop.
 */
module Gallery {
  import opened Wrappers
  import Cyclic

  datatype GalleryImage = GalleryImage(caption: string)

  const Images: seq<GalleryImage> := [
    GalleryImage("Morning prayers at the monastery"),
    GalleryImage("Traditional herb preparation"),
    GalleryImage("Consultation with Dr. Dorje"),
    GalleryImage("Tibetan medicine formulations"),
    GalleryImage("Medicinal herb garden"),
    GalleryImage("Community health camp"),
    GalleryImage("Patient wellness seminar"),
    GalleryImage("Research laboratory")
  ]

  const ImageCount: int := |Images|

  /**
   * `(lightbox + dir + images.length) % images.length`. From a shown image
   * and any step no further back than the image count, the result is an
   * image index.
   */
  function NavigateIndex(i: int, dir: int): (r: int)
    ensures 0 <= i < ImageCount && dir >= -ImageCount ==> 0 <= r < ImageCount
    ensures 0 <= i < ImageCount && 0 <= i + dir < ImageCount ==> r == i + dir
  {
    Cyclic.Rem(i + dir + ImageCount, ImageCount)
  }

  /** Stepping forward from the last image shows the first; back from the first, the last. */
  lemma NavigateWraps()
    ensures NavigateIndex(ImageCount - 1, 1) == 0
    ensures NavigateIndex(0, -1) == ImageCount - 1
  {
  }

  /** A step forward and a step back, in either order, return to the same image. */
  lemma NavigateInverse(i: int)
    requires 0 <= i < ImageCount
    ensures NavigateIndex(NavigateIndex(i, 1), -1) == i
    ensures NavigateIndex(NavigateIndex(i, -1), 1) == i
  {
  }

  /** The formula needs the bound on `dir`: one step more backwards gives a negative index. */
  lemma NavigateFarBackIsNegative()
    ensures NavigateIndex(0, -ImageCount - 1) == -1
  {
  }

  class Lightbox {
    var lightbox: Option<int>

    ghost predicate Valid()
      reads this
    {
      lightbox.Some? ==> 0 <= lightbox.value < ImageCount
    }

    constructor ()
      ensures Valid() && lightbox == None
    {
      lightbox := None;
    }

    /** The image shown, when the lightbox is open. */
    function Shown(): (img: Option<GalleryImage>)
      reads this
      requires Valid()
      ensures img.Some? <==> lightbox.Some?
      ensures img.Some? ==> img.value in Images
    {
      if lightbox.Some? then Some(Images[lightbox.value]) else None
    }

    /** A click on thumbnail `i`; there is one thumbnail per image. */
    method OpenAt(i: int)
      requires 0 <= i < ImageCount
      modifies this
      ensures Valid() && lightbox == Some(i)
    {
      lightbox := Some(i);
    }

    /** The close button, and a click on the backdrop. */
    method Close()
      modifies this
      ensures Valid() && lightbox == None
    {
      lightbox := None;
    }

    /** The arrows: `navigate(-1)` and `navigate(1)`; nothing happens while closed. */
    method Navigate(dir: int)
      requires Valid() && (dir == -1 || dir == 1)
      modifies this
      ensures Valid()
      ensures old(lightbox).None? ==> lightbox == None
      ensures old(lightbox).Some? ==> lightbox == Some(NavigateIndex(old(lightbox).value, dir))
    {
      if lightbox == None {
        return;
      }
      lightbox := Some(NavigateIndex(lightbox.value, dir));
    }
  }
}
