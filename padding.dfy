/** Padding a texture to multiple-of-4 dimensions: the size arithmetic and
    the two fill policies, chosen by the texture's file format. */
module Padding {
  import opened Images
  import opened Textures

  /** The texture the multiple-of-4 fix produces (the painter's FixMultipleOf4
      and the resize agents alike): padded to the least multiple of 4
      in each direction, with clamp-to-edge fill for JPG and transparent fill
      for every other format. */
  function FixedToMultipleOf4(format: FileFormat, img: Image): (r: Image)
    requires img.Valid() && img.width > 0 && img.height > 0
    ensures r.Valid() && r.width == PaddedDim(img.width) && r.height == PaddedDim(img.height)
  {
    if format == JPG then ClampPadded(img, PaddedDim(img.width), PaddedDim(img.height))
    else TransparentPadded(img, PaddedDim(img.width), PaddedDim(img.height))
  }

  /** An already compliant texture is left exactly as it is; otherwise the
      new size is the least multiple of 4 at or above the old one in each
      direction and every old pixel keeps its place. */
  lemma FixedToMultipleOf4Properties(format: FileFormat, img: Image)
    requires img.Valid() && img.width > 0 && img.height > 0
    ensures IsMultipleOf4(img.width, img.height) ==> FixedToMultipleOf4(format, img) == img
    ensures var r := FixedToMultipleOf4(format, img);
            r.width % 4 == 0 && img.width <= r.width < img.width + 4 &&
            r.height % 4 == 0 && img.height <= r.height < img.height + 4
    ensures forall x: nat, y: nat :: x < img.width && y < img.height ==>
              FixedToMultipleOf4(format, img).At(x, y) == img.At(x, y)
  {
    PaddedDimLeast(img.width);
    PaddedDimLeast(img.height);
    if IsMultipleOf4(img.width, img.height) {
      PaddingToSameSizeIsIdentity(img);
    }
    forall x: nat, y: nat | x < img.width && y < img.height
      ensures FixedToMultipleOf4(format, img).At(x, y) == img.At(x, y)
    {
      PaddingKeepsOldPixels(img, PaddedDim(img.width), PaddedDim(img.height), x, y);
    }
  }

  /** A texture reference is compliant when it is present and padding would
      leave its size as it is (both sides multiples of 4); every
      IsMultipleOf4 property of the components is this predicate. */
  predicate Compliant(t: Texture?)
    reads t
    ensures Compliant(t) <==> t != null && PaddedDim(t.width) == t.width && PaddedDim(t.height) == t.height
  {
    if t == null then false
    else
      PaddedDimLeast(t.width);
      PaddedDimLeast(t.height);
      IsMultipleOf4(t.width, t.height)
  }
}
