/** The engine texture every component works on (Texture2D): a mutable
    width x height pixel buffer, read and written one pixel at a time or as a
    whole, and re-sized in place by Reinitialize. */
module Textures {
  import opened Colors
  import opened Grid
  import opened Images

  /** The file kind of a texture asset. */
  datatype FileFormat = JPG | PNG | TGA | Unknown

  /** An opaque reference to an import-pipeline object (TextureImporter,
      TextureImporterSettings, TextureImporterPlatformSettings). */
  type Handle = nat

  /** The pixel formats the resize agents create their new textures in. */
  datatype TextureFormat = RGBA32 | RGB24

  class Texture {
    /** The asset name (Object.name); never changed by the pixel operations. */
    const name: string
    var width: nat
    var height: nat
    var pixels: array<Color>

    ghost predicate Valid()
      reads this
    {
      pixels.Length == width * height && width > 0 && height > 0
    }

    /** new Texture2D(width, height, ...) with the given pixels (a loaded asset). */
    constructor (name: string, width: nat, height: nat, colors: seq<Color>)
      requires width > 0 && height > 0 && |colors| == width * height
      ensures Valid() && fresh(pixels)
      ensures this.name == name && Snapshot() == Image(width, height, colors)
    {
      this.name := name;
      this.width := width;
      this.height := height;
      var buffer := new Color[width * height];
      forall i | 0 <= i < width * height {
        buffer[i] := colors[i];
      }
      pixels := buffer;
    }

    /** new Texture2D(width, height, format, false): an unnamed texture whose
        pixels are unspecified until written. */
    constructor Blank(width: nat, height: nat)
      requires width > 0 && height > 0
      ensures Valid() && fresh(pixels)
      ensures name == "" && this.width == width && this.height == height
    {
      name := "";
      this.width := width;
      this.height := height;
      pixels := new Color[width * height];
    }

    /** The current contents as a value. */
    function Snapshot(): (img: Image)
      reads this, pixels
      requires Valid()
      ensures img.Valid() && img.width == width && img.height == height
    {
      Image(width, height, pixels[..])
    }

    /** Texture2D.GetPixels(): a copy of the whole buffer. */
    function GetPixels(): (colors: seq<Color>)
      reads this, pixels
      requires Valid()
      ensures |colors| == width * height && colors == Snapshot().pixels
    {
      pixels[..]
    }

    /** Texture2D.GetPixels() as the engine returns it: a fresh Color[] array. */
    method GetPixelsArray() returns (colors: array<Color>)
      requires Valid()
      ensures fresh(colors) && colors[..] == Snapshot().pixels
    {
      colors := new Color[pixels.Length];
      forall i | 0 <= i < pixels.Length {
        colors[i] := pixels[i];
      }
    }

    /** Texture2D.GetPixel(x, y) for a coordinate inside the texture. */
    function GetPixel(x: nat, y: nat): (c: Color)
      reads this, pixels
      requires Valid() && x < width && y < height
      ensures c == Snapshot().At(x, y)
    {
      IdxInRange(width, height, x, y);
      pixels[Idx(width, x, y)]
    }

    /** Texture2D.SetPixel(x, y, c): pixel (x, y) becomes c and no other pixel
        changes. */
    method SetPixel(x: nat, y: nat, c: Color)
      requires Valid() && x < width && y < height
      modifies pixels
      ensures Valid()
      ensures forall u: nat, v: nat :: u < width && v < height ==>
                GetPixel(u, v) == if u == x && v == y then c else old(GetPixel(u, v))
    {
      IdxInRange(width, height, x, y);
      pixels[Idx(width, x, y)] := c;
      forall u: nat, v: nat | u < width && v < height
        ensures GetPixel(u, v) == if u == x && v == y then c else old(GetPixel(u, v))
      {
        IdxInRange(width, height, u, v);
        if Idx(width, u, v) == Idx(width, x, y) {
          IdxInjective(width, u, v, x, y);
        }
      }
    }

    /** Texture2D.SetPixels(colors) with a full-size array. */
    method SetPixels(colors: seq<Color>)
      requires Valid() && |colors| == width * height
      modifies pixels
      ensures Valid() && Snapshot() == Image(width, height, colors)
    {
      forall i | 0 <= i < pixels.Length {
        pixels[i] := colors[i];
      }
    }

    /** Texture2D.Reinitialize(width, height): the texture takes the new size
        and its contents are unspecified until written. */
    method Reinitialize(width: nat, height: nat)
      requires width > 0 && height > 0
      modifies this
      ensures Valid() && fresh(pixels)
      ensures this.width == width && this.height == height
    {
      this.width := width;
      this.height := height;
      pixels := new Color[width * height];
    }
  }
}
