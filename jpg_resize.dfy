/** The JPG resize agent's overrides: the pixel format of the new texture and
    the clamp-to-edge fill that replaces transparent padding (a JPG has no
    alpha channel, so padding is filled with copies of the edge pixels). */
module JpgResize {
  import opened Colors
  import opened Images
  import opened Textures

  /** The format a JPG agent creates its padded texture in. */
  function GetFormat(): TextureFormat {
    RGB24
  }

  /** Writes every cell of `newTexture`: cells inside the old texture are
      copied, cells beyond its right or bottom edge (or both) copy the nearest
      edge (or corner) pixel of the old texture. */
  method SetNewTexturePixels(width: nat, height: nat, newTexture: Texture, oldTexture: Texture)
    requires newTexture.Valid() && oldTexture.Valid()
    requires newTexture.width == width && newTexture.height == height
    requires newTexture.pixels != oldTexture.pixels
    modifies newTexture.pixels
    ensures newTexture.Valid()
    ensures newTexture.Snapshot() == ClampPadded(old(oldTexture.Snapshot()), width, height)
  {
    ghost var source := oldTexture.Snapshot();
    ghost var padded := ClampPadded(source, width, height);
    var h := 0;
    while h < height
      invariant 0 <= h <= height
      invariant newTexture.Valid() && newTexture.width == width && newTexture.height == height
      invariant oldTexture.Snapshot() == source
      invariant forall u: nat, v: nat :: u < width && v < h ==> newTexture.GetPixel(u, v) == padded.At(u, v)
    {
      var w := 0;
      while w < width
        invariant 0 <= w <= width
        invariant newTexture.Valid() && newTexture.width == width && newTexture.height == height
        invariant oldTexture.Snapshot() == source
        invariant forall u: nat, v: nat :: u < width && (v < h || (v == h && u < w)) ==>
                    newTexture.GetPixel(u, v) == padded.At(u, v)
      {
        ClampPaddedFromSource(source, width, height, w, h);
        if h < oldTexture.height && w < oldTexture.width {
          newTexture.SetPixel(w, h, oldTexture.GetPixel(w, h));
        } else {
          var greaterW := w >= oldTexture.width;
          var greaterH := h >= oldTexture.height;
          if greaterH && greaterW {
            newTexture.SetPixel(w, h, oldTexture.GetPixel(oldTexture.width - 1, oldTexture.height - 1));
          } else if greaterH && !greaterW {
            newTexture.SetPixel(w, h, oldTexture.GetPixel(w, oldTexture.height - 1));
          } else if !greaterH && greaterW {
            newTexture.SetPixel(w, h, oldTexture.GetPixel(oldTexture.width - 1, h));
          } else {
            // The source writes Color.clear here; the branch cannot be reached.
            assert false;
          }
        }
        w := w + 1;
      }
      h := h + 1;
    }
    SameImage(newTexture.Snapshot(), padded);
  }
}
