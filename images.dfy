/** Pure pixel-buffer values and the specification of every buffer transform:
    padding to a multiple of 4 (transparent fill and clamp-to-edge), mirroring,
    blank-border trimming and per-pixel maps. The texture methods are proved
    against these functions. */
module Images {
  import opened Colors
  import opened Grid

  /** A width x height buffer of colours in row-major order. */
  datatype Image = Image(width: nat, height: nat, pixels: seq<Color>) {

    predicate Valid() {
      |pixels| == width * height
    }

    /** The pixel at column x, row y. */
    function At(x: nat, y: nat): Color
      requires Valid() && x < width && y < height
    {
      IdxInRange(width, height, x, y);
      pixels[Idx(width, x, y)]
    }
  }

  /** The image whose pixel (x, y) is f(x, y). */
  function Build(width: nat, height: nat, f: (nat, nat) --> Color): (img: Image)
    requires forall x: nat, y: nat :: x < width && y < height ==> f.requires(x, y)
    ensures img.Valid() && img.width == width && img.height == height
  {
    Image(width, height, seq(width * height, (i: int) requires 0 <= i < width * height =>
      Decompose(width, height, i); f(i % width, i / width)))
  }

  lemma BuildAt(width: nat, height: nat, f: (nat, nat) --> Color, x: nat, y: nat)
    requires forall x: nat, y: nat :: x < width && y < height ==> f.requires(x, y)
    requires x < width && y < height
    ensures Build(width, height, f).At(x, y) == f(x, y)
  {
    IdxInRange(width, height, x, y);
    Coordinates(width, x, y);
  }

  /** Two images of the same size that agree at every coordinate are equal. */
  lemma SameImage(a: Image, b: Image)
    requires a.Valid() && b.Valid() && a.width == b.width && a.height == b.height
    requires forall x: nat, y: nat :: x < a.width && y < a.height ==> a.At(x, y) == b.At(x, y)
    ensures a == b
  {
    forall i | 0 <= i < |a.pixels|
      ensures a.pixels[i] == b.pixels[i]
    {
      Decompose(a.width, a.height, i);
      assert a.At(i % a.width, i / a.width) == b.At(i % a.width, i / a.width);
    }
  }

  // ---------------------------------------------------------------------------
  // Padding to a multiple of 4

  /** Width and height both divisible by 4: the block-compression requirement. */
  predicate IsMultipleOf4(width: nat, height: nat) {
    width % 4 == 0 && height % 4 == 0
  }

  /** The padded size every resize path computes: `n` when n % 4 == 0, else
      n + (4 - n % 4). */
  function PaddedDim(n: nat): nat {
    var diff := n % 4;
    if diff == 0 then n else n + (4 - diff)
  }

  /** The padded size is the least multiple of 4 at or above n, and it moves
      n only when n is not already a multiple of 4. */
  lemma PaddedDimLeast(n: nat)
    ensures PaddedDim(n) % 4 == 0
    ensures n <= PaddedDim(n) < n + 4
    ensures PaddedDim(n) == n <==> n % 4 == 0
    ensures forall m: nat :: n <= m && m % 4 == 0 ==> PaddedDim(n) <= m
  {
    forall m: nat | n <= m && m % 4 == 0
      ensures PaddedDim(n) <= m
    {
      if n % 4 != 0 {
        assert n / 4 < m / 4;
        assert PaddedDim(n) == (n / 4 + 1) * 4;
      }
    }
  }

  /** The transparent-fill policy: pixels inside the old bounds are copied,
      every other pixel of the width x height result is Color.clear. */
  function TransparentPadded(img: Image, width: nat, height: nat): (r: Image)
    requires img.Valid()
    ensures r.Valid() && r.width == width && r.height == height
  {
    Build(width, height, (x: nat, y: nat) =>
      if y < img.height && x < img.width then img.At(x, y) else Clear)
  }

  lemma TransparentPaddedAt(img: Image, width: nat, height: nat, x: nat, y: nat)
    requires img.Valid() && x < width && y < height
    ensures x < img.width && y < img.height ==> TransparentPadded(img, width, height).At(x, y) == img.At(x, y)
    ensures !(x < img.width && y < img.height) ==> TransparentPadded(img, width, height).At(x, y) == Clear
  {
    BuildAt(width, height, (x: nat, y: nat) =>
      if y < img.height && x < img.width then img.At(x, y) else Clear, x, y);
  }

  /** The clamp-to-edge policy used for JPG, branch for branch as the source
      writes it: inside pixels are copied; beyond both edges the corner
      (width - 1, height - 1) is copied; beyond the bottom edge only, the
      pixel of the last old row in the same column; beyond the right edge
      only, the pixel of the last old column in the same row. The final
      Clear case cannot be reached (ClampPaddedFromSource). */
  function ClampPadded(img: Image, width: nat, height: nat): (r: Image)
    requires img.Valid() && img.width > 0 && img.height > 0
    ensures r.Valid() && r.width == width && r.height == height
  {
    Build(width, height, (x: nat, y: nat) => ClampPixel(img, x, y))
  }

  function ClampPixel(img: Image, x: nat, y: nat): Color
    requires img.Valid() && img.width > 0 && img.height > 0
  {
    if y < img.height && x < img.width then img.At(x, y)
    else
      var greaterW := x >= img.width;
      var greaterH := y >= img.height;
      if greaterH && greaterW then img.At(img.width - 1, img.height - 1)
      else if greaterH && !greaterW then img.At(x, img.height - 1)
      else if !greaterH && greaterW then img.At(img.width - 1, y)
      else Clear
  }

  /** Every pixel of the clamp-padded image is the old pixel at the
      coordinate clamped into the old bounds, so the result holds no pixel
      that the old image did not hold. */
  lemma ClampPaddedFromSource(img: Image, width: nat, height: nat, x: nat, y: nat)
    requires img.Valid() && img.width > 0 && img.height > 0 && x < width && y < height
    ensures var cx := if x < img.width then x else img.width - 1;
            var cy := if y < img.height then y else img.height - 1;
            ClampPadded(img, width, height).At(x, y) == img.At(cx, cy)
    ensures exists u: nat, v: nat :: u < img.width && v < img.height &&
              ClampPadded(img, width, height).At(x, y) == img.At(u, v)
  {
    BuildAt(width, height, (x: nat, y: nat) => ClampPixel(img, x, y), x, y);
    var cx := if x < img.width then x else img.width - 1;
    var cy := if y < img.height then y else img.height - 1;
    assert ClampPadded(img, width, height).At(x, y) == img.At(cx, cy);
  }

  /** Padding never moves an old pixel: under both policies the old bounds
      are copied verbatim. */
  lemma PaddingKeepsOldPixels(img: Image, width: nat, height: nat, x: nat, y: nat)
    requires img.Valid() && img.width > 0 && img.height > 0
    requires x < img.width <= width && y < img.height <= height
    ensures TransparentPadded(img, width, height).At(x, y) == img.At(x, y)
    ensures ClampPadded(img, width, height).At(x, y) == img.At(x, y)
  {
    TransparentPaddedAt(img, width, height, x, y);
    ClampPaddedFromSource(img, width, height, x, y);
  }

  /** Padding to the size the image already has is the identity, under both
      policies: this is why an already compliant texture needs no rewrite. */
  lemma PaddingToSameSizeIsIdentity(img: Image)
    requires img.Valid() && img.width > 0 && img.height > 0
    ensures TransparentPadded(img, img.width, img.height) == img
    ensures ClampPadded(img, img.width, img.height) == img
  {
    forall x: nat, y: nat | x < img.width && y < img.height
      ensures TransparentPadded(img, img.width, img.height).At(x, y) == img.At(x, y)
      ensures ClampPadded(img, img.width, img.height).At(x, y) == img.At(x, y)
    {
      PaddingKeepsOldPixels(img, img.width, img.height, x, y);
    }
    SameImage(TransparentPadded(img, img.width, img.height), img);
    SameImage(ClampPadded(img, img.width, img.height), img);
  }

  // ---------------------------------------------------------------------------
  // Mirrors

  /** Left-right mirror: pixel (x, y) becomes the old (width - 1 - x, y). */
  function MirroredLR(img: Image): (r: Image)
    requires img.Valid()
    ensures r.Valid() && r.width == img.width && r.height == img.height
  {
    Build(img.width, img.height, (x: nat, y: nat) requires x < img.width && y < img.height =>
      img.At(img.width - 1 - x, y))
  }

  lemma MirroredLRAt(img: Image, x: nat, y: nat)
    requires img.Valid() && x < img.width && y < img.height
    ensures MirroredLR(img).At(x, y) == img.At(img.width - 1 - x, y)
  {
    BuildAt(img.width, img.height, (x: nat, y: nat) requires x < img.width && y < img.height =>
      img.At(img.width - 1 - x, y), x, y);
  }

  /** Top-bottom mirror: pixel (x, y) becomes the old (x, height - 1 - y). */
  function MirroredTB(img: Image): (r: Image)
    requires img.Valid()
    ensures r.Valid() && r.width == img.width && r.height == img.height
  {
    Build(img.width, img.height, (x: nat, y: nat) requires x < img.width && y < img.height =>
      img.At(x, img.height - 1 - y))
  }

  lemma MirroredTBAt(img: Image, x: nat, y: nat)
    requires img.Valid() && x < img.width && y < img.height
    ensures MirroredTB(img).At(x, y) == img.At(x, img.height - 1 - y)
  {
    BuildAt(img.width, img.height, (x: nat, y: nat) requires x < img.width && y < img.height =>
      img.At(x, img.height - 1 - y), x, y);
  }

  /** Mirroring twice, either way, restores the buffer exactly. */
  lemma MirrorsAreInvolutions(img: Image)
    requires img.Valid()
    ensures MirroredLR(MirroredLR(img)) == img
    ensures MirroredTB(MirroredTB(img)) == img
  {
    forall x: nat, y: nat | x < img.width && y < img.height
      ensures MirroredLR(MirroredLR(img)).At(x, y) == img.At(x, y)
      ensures MirroredTB(MirroredTB(img)).At(x, y) == img.At(x, y)
    {
      MirroredLRAt(MirroredLR(img), x, y);
      MirroredLRAt(img, img.width - 1 - x, y);
      MirroredTBAt(MirroredTB(img), x, y);
      MirroredTBAt(img, x, img.height - 1 - y);
    }
    SameImage(MirroredLR(MirroredLR(img)), img);
    SameImage(MirroredTB(MirroredTB(img)), img);
  }

  // ---------------------------------------------------------------------------
  // Per-pixel maps (Grayscale and the tonal previews)

  /** Reading pixel (x, y) straight out of a flat colour array `width` pixels
      wide, as the painter does with the array GetPixels returned. */
  function PixelOf(colors: seq<Color>, width: nat, x: nat, y: nat): Color
    requires Idx(width, x, y) < |colors|
  {
    colors[Idx(width, x, y)]
  }

  /** Reading a flat array through PixelOf agrees with the image it holds. */
  lemma PixelOfAt(img: Image, x: nat, y: nat)
    requires img.Valid() && x < img.width && y < img.height
    ensures Idx(img.width, x, y) < |img.pixels|
    ensures PixelOf(img.pixels, img.width, x, y) == img.At(x, y)
  {
    IdxInRange(img.width, img.height, x, y);
  }

  /** The image with f applied to every pixel. */
  function Mapped(img: Image, f: Color -> Color): (r: Image)
    requires img.Valid()
    ensures r.Valid() && r.width == img.width && r.height == img.height
  {
    Image(img.width, img.height, seq(|img.pixels|, (i: int) requires 0 <= i < |img.pixels| => f(img.pixels[i])))
  }

  lemma MappedAt(img: Image, f: Color -> Color, x: nat, y: nat)
    requires img.Valid() && x < img.width && y < img.height
    ensures Mapped(img, f).At(x, y) == f(img.At(x, y))
  {
    IdxInRange(img.width, img.height, x, y);
  }

  // ---------------------------------------------------------------------------
  // Blank-border trimming

  /** Row y is blank when every pixel in it is blank. */
  predicate BlankRow(img: Image, blank: Color -> bool, y: nat)
    requires img.Valid() && y < img.height
  {
    forall x: nat :: x < img.width ==> blank(img.At(x, y))
  }

  /** Column x is blank when every pixel in it is blank. */
  predicate BlankColumn(img: Image, blank: Color -> bool, x: nat)
    requires img.Valid() && x < img.width
  {
    forall y: nat :: y < img.height ==> blank(img.At(x, y))
  }

  /** The first non-blank row at or after `from` (height if there is none). */
  function FirstRow(img: Image, blank: Color -> bool, from: nat): (r: nat)
    requires img.Valid() && from <= img.height
    ensures from <= r <= img.height
    ensures forall y: nat :: from <= y < r ==> BlankRow(img, blank, y)
    ensures r < img.height ==> !BlankRow(img, blank, r)
    decreases img.height - from
  {
    if from == img.height || !BlankRow(img, blank, from) then from
    else FirstRow(img, blank, from + 1)
  }

  /** The last non-blank row at or before `from` (-1 if there is none). */
  function LastRow(img: Image, blank: Color -> bool, from: int): (r: int)
    requires img.Valid() && -1 <= from < img.height
    ensures -1 <= r <= from
    ensures forall y: nat :: r < y <= from ==> BlankRow(img, blank, y)
    ensures r >= 0 ==> !BlankRow(img, blank, r)
    decreases from + 1
  {
    if from == -1 || !BlankRow(img, blank, from) then from
    else LastRow(img, blank, from - 1)
  }

  /** The first non-blank column at or after `from` (width if there is none). */
  function FirstColumn(img: Image, blank: Color -> bool, from: nat): (r: nat)
    requires img.Valid() && from <= img.width
    ensures from <= r <= img.width
    ensures forall x: nat :: from <= x < r ==> BlankColumn(img, blank, x)
    ensures r < img.width ==> !BlankColumn(img, blank, r)
    decreases img.width - from
  {
    if from == img.width || !BlankColumn(img, blank, from) then from
    else FirstColumn(img, blank, from + 1)
  }

  /** The last non-blank column at or before `from` (-1 if there is none). */
  function LastColumn(img: Image, blank: Color -> bool, from: int): (r: int)
    requires img.Valid() && -1 <= from < img.width
    ensures -1 <= r <= from
    ensures forall x: nat :: r < x <= from ==> BlankColumn(img, blank, x)
    ensures r >= 0 ==> !BlankColumn(img, blank, r)
    decreases from + 1
  {
    if from == -1 || !BlankColumn(img, blank, from) then from
    else LastColumn(img, blank, from - 1)
  }

  /** Some pixel of the image is not blank. */
  predicate HasContent(img: Image, blank: Color -> bool)
    requires img.Valid()
  {
    exists x: nat, y: nat :: x < img.width && y < img.height && !blank(img.At(x, y))
  }

  /** The trimming rectangle: from the first to the last non-blank row and
      column. */
  datatype Bounds = Bounds(startColumn: int, startRow: int, endColumn: int, endRow: int)

  function TrimBounds(img: Image, blank: Color -> bool): Bounds
    requires img.Valid()
  {
    Bounds(FirstColumn(img, blank, 0), FirstRow(img, blank, 0),
           LastColumn(img, blank, img.width as int - 1), LastRow(img, blank, img.height as int - 1))
  }

  /** A non-blank pixel lies inside the trimming rectangle, so an image with
      content has a non-empty rectangle; an image without content has
      startRow == height and endRow == -1, so the size the trimmer computes,
      endRow - startRow + 1, is -height. */
  lemma TrimBoundsEnclose(img: Image, blank: Color -> bool)
    requires img.Valid()
    ensures var b := TrimBounds(img, blank);
            HasContent(img, blank) ==>
              0 <= b.startColumn <= b.endColumn < img.width &&
              0 <= b.startRow <= b.endRow < img.height
    ensures var b := TrimBounds(img, blank);
            !HasContent(img, blank) ==>
              b.startRow == img.height && b.endRow == -1 &&
              b.startColumn == img.width && b.endColumn == -1
    ensures forall x: nat, y: nat :: x < img.width && y < img.height && !blank(img.At(x, y)) ==>
              var b := TrimBounds(img, blank);
              b.startColumn <= x <= b.endColumn && b.startRow <= y <= b.endRow
  {
    var b := TrimBounds(img, blank);
    forall x: nat, y: nat | x < img.width && y < img.height && !blank(img.At(x, y))
      ensures b.startColumn <= x <= b.endColumn && b.startRow <= y <= b.endRow
    {
      assert !BlankRow(img, blank, y);
      assert !BlankColumn(img, blank, x);
    }
    if !HasContent(img, blank) {
      assert forall y: nat :: y < img.height ==> BlankRow(img, blank, y);
      assert forall x: nat :: x < img.width ==> BlankColumn(img, blank, x);
    }
  }

  /** The sub-rectangle of `img` with its lower-left corner at (x0, y0): what
      Texture2D.GetPixels(RectInt) returns, in row-major order. */
  function Crop(img: Image, x0: nat, y0: nat, width: nat, height: nat): (r: Image)
    requires img.Valid() && x0 + width <= img.width && y0 + height <= img.height
    ensures r.Valid() && r.width == width && r.height == height
  {
    Build(width, height, (x: nat, y: nat) requires x < width && y < height =>
      img.At(x + x0, y + y0))
  }

  lemma CropAt(img: Image, x0: nat, y0: nat, width: nat, height: nat, x: nat, y: nat)
    requires img.Valid() && x0 + width <= img.width && y0 + height <= img.height
    requires x < width && y < height
    ensures Crop(img, x0, y0, width, height).At(x, y) == img.At(x + x0, y + y0)
  {
    BuildAt(width, height, (x: nat, y: nat) requires x < width && y < height =>
      img.At(x + x0, y + y0), x, y);
  }

  /** The trimmed image of an image with content (without content the
      rectangle would have a negative size). */
  function Trimmed(img: Image, blank: Color -> bool): (r: Image)
    requires img.Valid() && HasContent(img, blank)
    ensures r.Valid()
  {
    TrimBoundsEnclose(img, blank);
    var b := TrimBounds(img, blank);
    Crop(img, b.startColumn, b.startRow, b.endColumn - b.startColumn + 1, b.endRow - b.startRow + 1)
  }

  /** The trimmed image keeps exactly the rectangle between the first and last
      non-blank row and column. */
  lemma TrimmedAt(img: Image, blank: Color -> bool, x: nat, y: nat)
    requires img.Valid() && HasContent(img, blank)
    ensures var b := TrimBounds(img, blank);
            Trimmed(img, blank).width == b.endColumn - b.startColumn + 1 &&
            Trimmed(img, blank).height == b.endRow - b.startRow + 1
    ensures var b := TrimBounds(img, blank);
            x < Trimmed(img, blank).width && y < Trimmed(img, blank).height ==>
              b.startColumn >= 0 && b.startRow >= 0 &&
              Trimmed(img, blank).At(x, y) == img.At(x + b.startColumn, y + b.startRow)
  {
    TrimBoundsEnclose(img, blank);
    var b := TrimBounds(img, blank);
    if x < Trimmed(img, blank).width && y < Trimmed(img, blank).height {
      CropAt(img, b.startColumn, b.startRow, b.endColumn - b.startColumn + 1, b.endRow - b.startRow + 1, x, y);
    }
  }

  /** A non-blank pixel survives trimming, moved by the rectangle's
      corner. */
  lemma TrimmedKeepsPixel(img: Image, blank: Color -> bool, x: nat, y: nat)
    requires img.Valid() && HasContent(img, blank)
    requires x < img.width && y < img.height && !blank(img.At(x, y))
    ensures var b := TrimBounds(img, blank);
            var t := Trimmed(img, blank);
            b.startColumn <= x && b.startRow <= y &&
            x - b.startColumn < t.width && y - b.startRow < t.height &&
            t.At(x - b.startColumn, y - b.startRow) == img.At(x, y)
  {
    TrimBoundsEnclose(img, blank);
    var b := TrimBounds(img, blank);
    TrimmedAt(img, blank, x - b.startColumn, y - b.startRow);
  }

  /** A row of the image that is not blank stays not blank after trimming. */
  lemma TrimmedRowKept(img: Image, blank: Color -> bool, y: nat)
    requires img.Valid() && HasContent(img, blank)
    requires y < img.height && !BlankRow(img, blank, y)
    ensures var b := TrimBounds(img, blank);
            var t := Trimmed(img, blank);
            b.startRow <= y && y - b.startRow < t.height && !BlankRow(t, blank, y - b.startRow)
  {
    var x: nat :| x < img.width && !blank(img.At(x, y));
    TrimmedKeepsPixel(img, blank, x, y);
    var b := TrimBounds(img, blank);
    assert !blank(Trimmed(img, blank).At(x - b.startColumn, y - b.startRow));
  }

  /** A column of the image that is not blank stays not blank after
      trimming. */
  lemma TrimmedColumnKept(img: Image, blank: Color -> bool, x: nat)
    requires img.Valid() && HasContent(img, blank)
    requires x < img.width && !BlankColumn(img, blank, x)
    ensures var b := TrimBounds(img, blank);
            var t := Trimmed(img, blank);
            b.startColumn <= x && x - b.startColumn < t.width && !BlankColumn(t, blank, x - b.startColumn)
  {
    var y: nat :| y < img.height && !blank(img.At(x, y));
    TrimmedKeepsPixel(img, blank, x, y);
    var b := TrimBounds(img, blank);
    assert !blank(Trimmed(img, blank).At(x - b.startColumn, y - b.startRow));
  }

  /** The first and last kept rows of the trimmed image are not blank. */
  lemma TrimmedRowsNotBlank(img: Image, blank: Color -> bool)
    requires img.Valid() && HasContent(img, blank)
    ensures var t := Trimmed(img, blank);
            t.height > 0 && !BlankRow(t, blank, 0) && !BlankRow(t, blank, t.height - 1)
  {
    TrimBoundsEnclose(img, blank);
    var b := TrimBounds(img, blank);
    TrimmedAt(img, blank, 0, 0);
    TrimmedRowKept(img, blank, b.startRow);
    TrimmedRowKept(img, blank, b.endRow);
  }

  /** The first and last kept columns of the trimmed image are not blank. */
  lemma TrimmedColumnsNotBlank(img: Image, blank: Color -> bool)
    requires img.Valid() && HasContent(img, blank)
    ensures var t := Trimmed(img, blank);
            t.width > 0 && !BlankColumn(t, blank, 0) && !BlankColumn(t, blank, t.width - 1)
  {
    TrimBoundsEnclose(img, blank);
    var b := TrimBounds(img, blank);
    TrimmedAt(img, blank, 0, 0);
    TrimmedColumnKept(img, blank, b.startColumn);
    TrimmedColumnKept(img, blank, b.endColumn);
  }

  /** An image whose outer rows and columns are all non-blank trims to itself. */
  lemma TrimFramedIsIdentity(t: Image, blank: Color -> bool)
    requires t.Valid() && t.width > 0 && t.height > 0
    requires !BlankRow(t, blank, 0) && !BlankRow(t, blank, t.height - 1)
    requires !BlankColumn(t, blank, 0) && !BlankColumn(t, blank, t.width - 1)
    ensures HasContent(t, blank) && Trimmed(t, blank) == t
  {
    var x: nat :| x < t.width && !blank(t.At(x, 0));
    assert HasContent(t, blank);
    assert TrimBounds(t, blank) == Bounds(0, 0, t.width - 1, t.height - 1);
    forall x: nat, y: nat | x < t.width && y < t.height
      ensures Trimmed(t, blank).At(x, y) == t.At(x, y)
    {
      TrimmedAt(t, blank, x, y);
    }
    TrimmedAt(t, blank, 0, 0);
    SameImage(Trimmed(t, blank), t);
  }

  /** Trimming is idempotent: the trimmed image has a non-blank first and last
      row and column, so trimming it again removes nothing. */
  lemma TrimIdempotent(img: Image, blank: Color -> bool)
    requires img.Valid() && HasContent(img, blank)
    ensures HasContent(Trimmed(img, blank), blank)
    ensures Trimmed(Trimmed(img, blank), blank) == Trimmed(img, blank)
  {
    TrimmedRowsNotBlank(img, blank);
    TrimmedColumnsNotBlank(img, blank);
    TrimFramedIsIdentity(Trimmed(img, blank), blank);
  }
}
