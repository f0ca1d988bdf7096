/** The texture painter: one texture opened for editing, an editable copy of
    it (`paintValue`) that every operation rewrites in place, and the two
    preview caches of the tonal panel. */
module Painter {
  import opened Wrappers
  import opened Colors
  import opened Grid
  import opened Images
  import opened Textures
  import opened PainterSession
  import opened Padding

  /** What CutBlankPixels did: nothing for a JPG; nothing for a texture
      without a non-blank pixel, where the source asks the engine for a
      rectangle of negative size and the engine refuses; otherwise it cut. */
  datatype CutOutcome = SkippedJpg | NoContent | Cut

  /** The JPG branch of FixMultipleOf4: fills the re-sized texture `t` from
      the old pixel array (oldWidth x oldHeight), clamping to the edge. */
  method FillClampPadded(t: Texture, oldColors: seq<Color>, oldWidth: nat, oldHeight: nat)
    requires t.Valid() && oldWidth > 0 && oldHeight > 0 && |oldColors| == oldWidth * oldHeight
    modifies t.pixels
    ensures t.Valid() && t.Snapshot() == ClampPadded(Image(oldWidth, oldHeight, oldColors), t.width, t.height)
  {
    ghost var source := Image(oldWidth, oldHeight, oldColors);
    ghost var padded := ClampPadded(source, t.width, t.height);
    LastIsCorner(oldWidth, oldHeight);
    PixelOfAt(source, oldWidth - 1, oldHeight - 1);
    var h := 0;
    while h < t.height
      invariant 0 <= h <= t.height && t.Valid()
      invariant forall u: nat, v: nat :: u < t.width && v < h ==> t.GetPixel(u, v) == padded.At(u, v)
    {
      var w := 0;
      while w < t.width
        invariant 0 <= w <= t.width && t.Valid()
        invariant forall u: nat, v: nat :: u < t.width && (v < h || (v == h && u < w)) ==>
                    t.GetPixel(u, v) == padded.At(u, v)
      {
        ClampPaddedFromSource(source, t.width, t.height, w, h);
        if h < oldHeight && w < oldWidth {
          PixelOfAt(source, w, h);
          t.SetPixel(w, h, PixelOf(oldColors, oldWidth, w, h));
        } else {
          var greaterW := w >= oldWidth;
          var greaterH := h >= oldHeight;
          if greaterH && greaterW {
            t.SetPixel(w, h, oldColors[oldHeight * oldWidth - 1]);
          } else if greaterH && !greaterW {
            PixelOfAt(source, w, oldHeight - 1);
            t.SetPixel(w, h, PixelOf(oldColors, oldWidth, w, oldHeight - 1));
          } else if !greaterH && greaterW {
            PixelOfAt(source, oldWidth - 1, h);
            t.SetPixel(w, h, PixelOf(oldColors, oldWidth, oldWidth - 1, h));
          } else {
            // The source writes Color.clear here; the branch cannot be reached.
            assert false;
          }
        }
        w := w + 1;
      }
      h := h + 1;
    }
    SameImage(t.Snapshot(), padded);
  }

  /** The other branch of FixMultipleOf4: old pixels are copied, every other
      pixel of the re-sized texture `t` becomes Color.clear. */
  method FillTransparentPadded(t: Texture, oldColors: seq<Color>, oldWidth: nat, oldHeight: nat)
    requires t.Valid() && |oldColors| == oldWidth * oldHeight
    modifies t.pixels
    ensures t.Valid() && t.Snapshot() == TransparentPadded(Image(oldWidth, oldHeight, oldColors), t.width, t.height)
  {
    ghost var source := Image(oldWidth, oldHeight, oldColors);
    ghost var padded := TransparentPadded(source, t.width, t.height);
    var h := 0;
    while h < t.height
      invariant 0 <= h <= t.height && t.Valid()
      invariant forall u: nat, v: nat :: u < t.width && v < h ==> t.GetPixel(u, v) == padded.At(u, v)
    {
      var w := 0;
      while w < t.width
        invariant 0 <= w <= t.width && t.Valid()
        invariant forall u: nat, v: nat :: u < t.width && (v < h || (v == h && u < w)) ==>
                    t.GetPixel(u, v) == padded.At(u, v)
      {
        TransparentPaddedAt(source, t.width, t.height, w, h);
        if h < oldHeight && w < oldWidth {
          PixelOfAt(source, w, h);
          t.SetPixel(w, h, PixelOf(oldColors, oldWidth, w, h));
        } else {
          t.SetPixel(w, h, Clear);
        }
        w := w + 1;
      }
      h := h + 1;
    }
    SameImage(t.Snapshot(), padded);
  }

  /** Where pixel u of a line of `n` pixels came from after the first
      `w` pixels were swapped with the last `w`. */
  function Swapped(u: nat, w: nat, n: nat): nat
    requires u < n
  {
    if u < w || u >= n - w then n - 1 - u else u
  }

  /** Swapping pair w (pixel w with pixel n - 1 - w) swaps one pair more. */
  lemma SwappedStep(u: nat, w: nat, n: nat)
    requires u < n && w < n / 2
    ensures Swapped(u, w + 1, n) ==
              if u == w then Swapped(n - 1 - w, w, n)
              else if u == n - 1 - w then Swapped(w, w, n)
              else Swapped(u, w, n)
  {
  }

  /** Once half the line is swapped, every pixel comes from its mirror
      position (the middle pixel of an odd line is its own mirror). */
  lemma SwappedHalf(u: nat, half: nat, n: nat)
    requires u < n && half == n / 2
    ensures Swapped(u, half, n) == n - 1 - u
  {
  }

  /** The inner loop of LeftRightMirror: row h is reversed by swapping
      pixel w with pixel width - 1 - w for every w below widthHalf; the
      middle pixel of an odd row stays where it is. */
  method MirrorRow(t: Texture, widthHalf: nat, h: nat)
    requires t.Valid() && widthHalf == t.width / 2 && h < t.height
    modifies t.pixels
    ensures t.Valid()
    ensures forall u: nat, v: nat :: u < t.width && v < t.height && v != h ==>
              t.GetPixel(u, v) == old(t.Snapshot()).At(u, v)
    ensures forall u: nat :: u < t.width ==> t.GetPixel(u, h) == old(t.Snapshot()).At(t.width - 1 - u, h)
  {
    ghost var before := t.Snapshot();
    var w := 0;
    while w < widthHalf
      invariant 0 <= w <= widthHalf && t.Valid()
      invariant forall u: nat, v: nat :: u < t.width && v < t.height && v != h ==> t.GetPixel(u, v) == before.At(u, v)
      invariant forall u: nat :: u < t.width ==> t.GetPixel(u, h) == before.At(Swapped(u, w, t.width), h)
    {
      var mirrorIndex := t.width - 1 - w;
      var color := t.GetPixel(w, h);
      t.SetPixel(w, h, t.GetPixel(mirrorIndex, h));
      t.SetPixel(mirrorIndex, h, color);
      forall u: nat | u < t.width
        ensures t.GetPixel(u, h) == before.At(Swapped(u, w + 1, t.width), h)
      {
        SwappedStep(u, w, t.width);
      }
      w := w + 1;
    }
    forall u: nat | u < t.width
      ensures t.GetPixel(u, h) == before.At(t.width - 1 - u, h)
    {
      SwappedHalf(u, widthHalf, t.width);
    }
  }

  /** The inner loop of TopBottomMirror: column w is reversed by swapping
      pixel h with pixel height - 1 - h for every h below heightHalf. */
  method MirrorColumn(t: Texture, heightHalf: nat, w: nat)
    requires t.Valid() && heightHalf == t.height / 2 && w < t.width
    modifies t.pixels
    ensures t.Valid()
    ensures forall u: nat, v: nat :: u < t.width && v < t.height && u != w ==>
              t.GetPixel(u, v) == old(t.Snapshot()).At(u, v)
    ensures forall v: nat :: v < t.height ==> t.GetPixel(w, v) == old(t.Snapshot()).At(w, t.height - 1 - v)
  {
    ghost var before := t.Snapshot();
    var h := 0;
    while h < heightHalf
      invariant 0 <= h <= heightHalf && t.Valid()
      invariant forall u: nat, v: nat :: u < t.width && v < t.height && u != w ==> t.GetPixel(u, v) == before.At(u, v)
      invariant forall v: nat :: v < t.height ==> t.GetPixel(w, v) == before.At(w, Swapped(v, h, t.height))
    {
      var mirrorIndex := t.height - 1 - h;
      var color := t.GetPixel(w, h);
      t.SetPixel(w, h, t.GetPixel(w, mirrorIndex));
      t.SetPixel(w, mirrorIndex, color);
      forall v: nat | v < t.height
        ensures t.GetPixel(w, v) == before.At(w, Swapped(v, h + 1, t.height))
      {
        SwappedStep(v, h, t.height);
      }
      h := h + 1;
    }
    forall v: nat | v < t.height
      ensures t.GetPixel(w, v) == before.At(w, t.height - 1 - v)
    {
      SwappedHalf(v, heightHalf, t.height);
    }
  }

  /** The first scan of CutBlankPixels: rows from the top while they are
      blank. */
  method ScanStartRow(img: Image, blank: Color -> bool) returns (startRow: nat)
    requires img.Valid()
    ensures startRow == FirstRow(img, blank, 0)
  {
    startRow := 0;
    var i := 0;
    while i < img.height
      invariant 0 <= i <= img.height && startRow == i
      invariant forall y: nat :: y < i ==> BlankRow(img, blank, y)
    {
      if BlankRow(img, blank, i) {
        startRow := i + 1;
      } else {
        break;
      }
      i := i + 1;
    }
  }

  /** The second scan: rows from the bottom while they are blank. */
  method ScanEndRow(img: Image, blank: Color -> bool) returns (endRow: int)
    requires img.Valid()
    ensures endRow == LastRow(img, blank, img.height - 1)
  {
    endRow := img.height - 1;
    var j: int := img.height - 1;
    while j >= 0
      invariant -1 <= j < img.height && endRow == j
      invariant forall y: nat :: j < y < img.height ==> BlankRow(img, blank, y)
    {
      if BlankRow(img, blank, j) {
        endRow := j - 1;
      } else {
        break;
      }
      j := j - 1;
    }
  }

  /** The third scan: columns from the left while they are blank. */
  method ScanStartColumn(img: Image, blank: Color -> bool) returns (startColumn: nat)
    requires img.Valid()
    ensures startColumn == FirstColumn(img, blank, 0)
  {
    startColumn := 0;
    var i := 0;
    while i < img.width
      invariant 0 <= i <= img.width && startColumn == i
      invariant forall x: nat :: x < i ==> BlankColumn(img, blank, x)
    {
      if BlankColumn(img, blank, i) {
        startColumn := i + 1;
      } else {
        break;
      }
      i := i + 1;
    }
  }

  /** The fourth scan: columns from the right while they are blank. */
  method ScanEndColumn(img: Image, blank: Color -> bool) returns (endColumn: int)
    requires img.Valid()
    ensures endColumn == LastColumn(img, blank, img.width - 1)
  {
    endColumn := img.width - 1;
    var j: int := img.width - 1;
    while j >= 0
      invariant -1 <= j < img.width && endColumn == j
      invariant forall x: nat :: j < x < img.width ==> BlankColumn(img, blank, x)
    {
      if BlankColumn(img, blank, j) {
        endColumn := j - 1;
      } else {
        break;
      }
      j := j - 1;
    }
  }

  class TexturePainter {
    /** The opened texture asset. */
    var value: Texture?
    var format: FileFormat
    var importer: Option<Handle>
    var settings: Option<Handle>
    var platformSettings: Option<Handle>
    /** The editable copy every operation works on. */
    var paintValue: Texture?
    /** The baseline cache of the tonal previews (_rawPixels). */
    var rawPixels: Option<seq<Color>>
    /** The target cache of the saturation and value previews (_targetPixels). */
    var targetPixels: Option<seq<Color>>

    /** The painter holds an editable texture. */
    ghost predicate Ready()
      reads this, paintValue
    {
      paintValue != null && paintValue.Valid()
    }

    /** The editable texture and the caches as a session value. */
    ghost function State(): Session
      reads this, paintValue, paintValue.pixels
      requires Ready()
    {
      Session(paintValue.Snapshot(), rawPixels, targetPixels)
    }

    /** An empty painter. The file format is the enum's default, JPG. */
    constructor ()
      ensures value == null && paintValue == null && format == JPG
      ensures importer == None && settings == None && platformSettings == None
      ensures rawPixels == None && targetPixels == None
    {
      value := null;
      format := JPG;
      importer := None;
      settings := None;
      platformSettings := None;
      paintValue := null;
      rawPixels := None;
      targetPixels := None;
    }

    /** Opens `texture`: its format and import settings are read (here:
        given) and the editable copy is a fresh clone of it. The caches are
        not touched. */
    method OpenTexture(texture: Texture, format: FileFormat, importer: Handle, settings: Handle, platformSettings: Handle)
      requires texture.Valid()
      modifies this
      ensures value == texture && this.format == format
      ensures this.importer == Some(importer) && this.settings == Some(settings)
      ensures this.platformSettings == Some(platformSettings)
      ensures Ready() && fresh(paintValue) && fresh(paintValue.pixels)
      ensures paintValue.Snapshot() == texture.Snapshot()
      ensures rawPixels == old(rawPixels) && targetPixels == old(targetPixels)
    {
      value := texture;
      this.format := format;
      this.importer := Some(importer);
      this.settings := Some(settings);
      this.platformSettings := Some(platformSettings);
      paintValue := new Texture(texture.name + "(Clone)", texture.width, texture.height, texture.GetPixels());
    }

    predicate IsNull()
      reads this
    {
      value == null || paintValue == null
    }

    /** Both dimensions of the editable texture are multiples of 4 (false
        when there is none). */
    predicate IsMultipleOf4()
      reads this, paintValue
    {
      Compliant(paintValue)
    }

    /** Pads the editable texture to multiple-of-4 dimensions. */
    method FixMultipleOf4()
      requires Ready()
      modifies paintValue
      ensures Ready()
      ensures paintValue.Snapshot() == FixedToMultipleOf4(format, old(paintValue.Snapshot()))
      ensures old(IsMultipleOf4()) ==> paintValue.Snapshot() == old(paintValue.Snapshot())
    {
      FixedToMultipleOf4Properties(format, paintValue.Snapshot());
      if IsMultipleOf4() {
        return;
      }
      var t := paintValue;
      var widthDiff := t.width % 4;
      var heightDiff := t.height % 4;
      var width := if widthDiff == 0 then t.width else t.width + (4 - widthDiff);
      var height := if heightDiff == 0 then t.height else t.height + (4 - heightDiff);
      var oldWidth := t.width;
      var oldHeight := t.height;
      var oldColors := t.GetPixels();
      t.Reinitialize(width, height);
      if format == JPG {
        FillClampPadded(t, oldColors, oldWidth, oldHeight);
      } else {
        FillTransparentPadded(t, oldColors, oldWidth, oldHeight);
      }
    }

    /** Cuts away the fully blank outer rows and columns (not for JPG). */
    method CutBlankPixels(blank: Color -> bool) returns (outcome: CutOutcome)
      requires Ready()
      modifies paintValue
      ensures Ready()
      ensures format == JPG ==> outcome == SkippedJpg
      ensures format != JPG && !HasContent(old(paintValue.Snapshot()), blank) ==> outcome == NoContent
      ensures format != JPG && HasContent(old(paintValue.Snapshot()), blank) ==> outcome == Cut
      ensures outcome == Cut ==> HasContent(old(paintValue.Snapshot()), blank) &&
                                 paintValue.Snapshot() == Trimmed(old(paintValue.Snapshot()), blank)
      ensures outcome != Cut ==> paintValue.Snapshot() == old(paintValue.Snapshot())
    {
      if format == JPG {
        return SkippedJpg;
      }
      var t := paintValue;
      var img := t.Snapshot();

      var startRow := ScanStartRow(img, blank);
      var endRow := ScanEndRow(img, blank);
      var startColumn := ScanStartColumn(img, blank);
      var endColumn := ScanEndColumn(img, blank);
      assert TrimBounds(img, blank) == Bounds(startColumn, startRow, endColumn, endRow);
      TrimBoundsEnclose(img, blank);
      var areaWidth := endColumn - startColumn + 1;
      var areaHeight := endRow - startRow + 1;
      if areaWidth <= 0 || areaHeight <= 0 {
        // The rectangle has a negative size: the engine's GetPixels refuses
        // it and the texture stays as it was.
        return NoContent;
      }
      var area := Crop(img, startColumn, startRow, areaWidth, areaHeight);
      assert area == Trimmed(img, blank);
      var newColors := area.pixels;
      t.Reinitialize(areaWidth, areaHeight);
      t.SetPixels(newColors);
      assert t.Snapshot() == area;
      outcome := Cut;
    }

    /** Replaces every pixel by its grey value. */
    method Grayscale(gray: Color -> Color)
      requires Ready()
      modifies paintValue.pixels
      ensures Ready()
      ensures paintValue.Snapshot() == Mapped(old(paintValue.Snapshot()), gray)
    {
      var t := paintValue;
      ghost var source := t.Snapshot();
      var h := 0;
      while h < t.height
        invariant 0 <= h <= t.height
        invariant t.Valid() && t.width == source.width && t.height == source.height
        invariant forall u: nat, v: nat :: u < t.width && v < t.height ==>
                    t.GetPixel(u, v) == if v < h then gray(source.At(u, v)) else source.At(u, v)
      {
        var w := 0;
        while w < t.width
          invariant 0 <= w <= t.width
          invariant t.Valid() && t.width == source.width && t.height == source.height
          invariant forall u: nat, v: nat :: u < t.width && v < t.height ==>
                      t.GetPixel(u, v) == if v < h || (v == h && u < w) then gray(source.At(u, v)) else source.At(u, v)
        {
          t.SetPixel(w, h, gray(t.GetPixel(w, h)));
          w := w + 1;
        }
        h := h + 1;
      }
      forall u: nat, v: nat | u < t.width && v < t.height
        ensures t.GetPixel(u, v) == Mapped(source, gray).At(u, v)
      {
        MappedAt(source, gray, u, v);
      }
      SameImage(t.Snapshot(), Mapped(source, gray));
    }

    /** Mirrors the editable texture left to right, row by row. */
    method LeftRightMirror()
      requires Ready()
      modifies paintValue.pixels
      ensures Ready()
      ensures paintValue.Snapshot() == MirroredLR(old(paintValue.Snapshot()))
    {
      var t := paintValue;
      ghost var source := t.Snapshot();
      var widthHalf := t.width / 2;
      var h := 0;
      while h < t.height
        invariant 0 <= h <= t.height
        invariant t.Valid() && t.width == source.width && t.height == source.height
        invariant forall u: nat, v: nat :: u < t.width && h <= v < t.height ==> t.GetPixel(u, v) == source.At(u, v)
        invariant forall u: nat, v: nat :: u < t.width && v < h ==> t.GetPixel(u, v) == MirroredLR(source).At(u, v)
      {
        ghost var prev := t.Snapshot();
        MirrorRow(t, widthHalf, h);
        forall u: nat | u < t.width
          ensures t.GetPixel(u, h) == MirroredLR(source).At(u, h)
        {
          MirroredLRAt(source, u, h);
          assert prev.At(t.width - 1 - u, h) == source.At(t.width - 1 - u, h);
        }
        h := h + 1;
      }
      SameImage(t.Snapshot(), MirroredLR(source));
    }

    /** Mirrors the editable texture top to bottom, column by column. */
    method TopBottomMirror()
      requires Ready()
      modifies paintValue.pixels
      ensures Ready()
      ensures paintValue.Snapshot() == MirroredTB(old(paintValue.Snapshot()))
    {
      var t := paintValue;
      ghost var source := t.Snapshot();
      var heightHalf := t.height / 2;
      var w := 0;
      while w < t.width
        invariant 0 <= w <= t.width
        invariant t.Valid() && t.width == source.width && t.height == source.height
        invariant forall u: nat, v: nat :: w <= u < t.width && v < t.height ==> t.GetPixel(u, v) == source.At(u, v)
        invariant forall u: nat, v: nat :: u < w && v < t.height ==> t.GetPixel(u, v) == MirroredTB(source).At(u, v)
      {
        ghost var prev := t.Snapshot();
        MirrorColumn(t, heightHalf, w);
        forall v: nat | v < t.height
          ensures t.GetPixel(w, v) == MirroredTB(source).At(w, v)
        {
          MirroredTBAt(source, w, v);
          assert prev.At(w, t.height - 1 - v) == source.At(w, t.height - 1 - v);
        }
        w := w + 1;
      }
      SameImage(t.Snapshot(), MirroredTB(source));
    }

    // -------------------------------------------------------------------------
    // Tonal previews

    /** Fills the baseline cache with a copy of the current pixels unless it
        already holds width * height colours. */
    method CaptureBaseline()
      requires Ready()
      modifies this`rawPixels
      ensures rawPixels == Some(Baseline(old(State())))
    {
      var t := paintValue;
      ghost var s0 := State();
      assert |s0.image.pixels| == t.width * t.height;
      if rawPixels.None? || |rawPixels.value| != t.width * t.height {
        assert Baseline(s0) == t.Snapshot().pixels;
        var rawColors := t.GetPixelsArray();
        assert rawColors[..] == Baseline(s0);
        var raw := new Color[rawColors.Length];
        assert rawColors[..] == Baseline(s0);
        var i := 0;
        while i < rawColors.Length
          modifies raw
          invariant 0 <= i <= rawColors.Length
          invariant forall k :: 0 <= k < i ==> raw[k] == rawColors[k]
        {
          raw[i] := rawColors[i];
          i := i + 1;
        }
        assert raw[..] == rawColors[..];
        assert rawColors[..] == Baseline(s0);
        rawPixels := Some(raw[..]);
        assert rawPixels == Some(Baseline(s0));
      } else {
        assert CacheValid(rawPixels, |s0.image.pixels|);
      }
      assert s0 == old(State());
    }

    /** Fills the target cache with `targetOf` applied to the current pixels
        unless it already holds width * height colours. */
    method CaptureTarget(targetOf: Color -> Color)
      requires Ready()
      modifies this`targetPixels
      ensures targetPixels == Some(Target(old(State()), targetOf))
    {
      var t := paintValue;
      assert |State().image.pixels| == t.width * t.height;
      if targetPixels.None? || |targetPixels.value| != t.width * t.height {
        var rawColors := t.GetPixelsArray();
        var target := new Color[rawColors.Length];
        var i := 0;
        while i < rawColors.Length
          modifies target
          invariant 0 <= i <= rawColors.Length
          invariant forall k :: 0 <= k < i ==> target[k] == targetOf(rawColors[k])
        {
          target[i] := targetOf(rawColors[i]);
          i := i + 1;
        }
        assert target[..] == Target(old(State()), targetOf);
        targetPixels := Some(target[..]);
      } else {
        assert CacheValid(targetPixels, |State().image.pixels|);
      }
    }

    /** Writes `colors` (the baseline) back into the editable texture. */
    method WriteBack(colors: seq<Color>)
      requires Ready() && |colors| == paintValue.width * paintValue.height
      modifies paintValue.pixels
      ensures Ready() && paintValue.Snapshot() == old(paintValue.Snapshot()).(pixels := colors)
    {
      var t := paintValue;
      var buffer := t.GetPixelsArray();
      var i := 0;
      while i < buffer.Length
        modifies buffer
        invariant 0 <= i <= buffer.Length
        invariant forall k :: 0 <= k < i ==> buffer[k] == colors[k]
      {
        buffer[i] := colors[i];
        i := i + 1;
      }
      assert buffer[..] == colors;
      t.SetPixels(buffer[..]);
    }

    /** Brightness preview: computed from the baseline, never from the
        previous preview. */
    method AdjustBrightness(brightness: real)
      requires Ready()
      modifies this`rawPixels, paintValue.pixels
      ensures Ready() && State() == BrightnessPreview(old(State()), brightness)
    {
      CaptureBaseline();
      var t := paintValue;
      var base := rawPixels.value;
      var colors := t.GetPixelsArray();
      var i := 0;
      while i < colors.Length
        modifies colors
        invariant 0 <= i <= colors.Length
        invariant forall k :: 0 <= k < i ==> colors[k] == Brighten(base[k], brightness)
      {
        colors[i] := Brighten(base[i], brightness);
        i := i + 1;
      }
      assert colors[..] == seq(|base|, (k: int) requires 0 <= k < |base| => Brighten(base[k], brightness));
      t.SetPixels(colors[..]);
    }

    /** Saturation and value previews: the baseline blended toward the
        target at `level`. */
    method Blend(level: real, targetOf: Color -> Color)
      requires Ready()
      modifies this`rawPixels, this`targetPixels, paintValue.pixels
      ensures Ready() && State() == BlendPreview(old(State()), level, targetOf)
    {
      CaptureBaseline();
      CaptureTarget(targetOf);
      var t := paintValue;
      var base := rawPixels.value;
      var target := targetPixels.value;
      var colors := t.GetPixelsArray();
      var i := 0;
      while i < colors.Length
        modifies colors
        invariant 0 <= i <= colors.Length
        invariant forall k :: 0 <= k < i ==> colors[k] == Lerp(base[k], target[k], level)
      {
        colors[i] := Lerp(base[i], target[i], level);
        i := i + 1;
      }
      assert colors[..] == seq(|base|, (k: int) requires 0 <= k < |base| => Lerp(base[k], target[k], level));
      t.SetPixels(colors[..]);
    }

    method AdjustSaturation(saturation: real, saturationMax: Color -> Color)
      requires Ready()
      modifies this`rawPixels, this`targetPixels, paintValue.pixels
      ensures Ready() && State() == BlendPreview(old(State()), saturation, saturationMax)
    {
      Blend(saturation, saturationMax);
    }

    method AdjustValue(value: real, valueMax: Color -> Color)
      requires Ready()
      modifies this`rawPixels, this`targetPixels, paintValue.pixels
      ensures Ready() && State() == BlendPreview(old(State()), value, valueMax)
    {
      Blend(value, valueMax);
    }

    method AdjustBrightnessSave()
      modifies this`rawPixels
      ensures rawPixels == None
      ensures old(Ready()) ==> State() == BrightnessSave(old(State()))
    {
      rawPixels := None;
    }

    method AdjustBrightnessRestore()
      requires Ready()
      modifies this`rawPixels, paintValue.pixels
      ensures Ready() && State() == BrightnessRestore(old(State()))
    {
      var t := paintValue;
      if rawPixels.None? || |rawPixels.value| != t.width * t.height {
        rawPixels := None;
        return;
      }
      WriteBack(rawPixels.value);
      rawPixels := None;
    }

    /** The save shared by the saturation and value panels. */
    method BlendSaveCaches()
      modifies this`rawPixels, this`targetPixels
      ensures rawPixels == None && targetPixels == None
      ensures old(Ready()) ==> State() == BlendSave(old(State()))
    {
      rawPixels := None;
      targetPixels := None;
    }

    /** The restore shared by the saturation and value panels. */
    method BlendRestoreCaches()
      requires Ready()
      modifies this`rawPixels, this`targetPixels, paintValue.pixels
      ensures Ready() && State() == BlendRestore(old(State()))
    {
      var t := paintValue;
      var n := t.width * t.height;
      if rawPixels.None? || |rawPixels.value| != n || targetPixels.None? || |targetPixels.value| != n {
        rawPixels := None;
        targetPixels := None;
        return;
      }
      WriteBack(rawPixels.value);
      rawPixels := None;
      targetPixels := None;
    }

    method AdjustSaturationSave()
      modifies this`rawPixels, this`targetPixels
      ensures rawPixels == None && targetPixels == None
      ensures old(Ready()) ==> State() == BlendSave(old(State()))
    {
      BlendSaveCaches();
    }

    method AdjustSaturationRestore()
      requires Ready()
      modifies this`rawPixels, this`targetPixels, paintValue.pixels
      ensures Ready() && State() == BlendRestore(old(State()))
    {
      BlendRestoreCaches();
    }

    method AdjustValueSave()
      modifies this`rawPixels, this`targetPixels
      ensures rawPixels == None && targetPixels == None
      ensures old(Ready()) ==> State() == BlendSave(old(State()))
    {
      BlendSaveCaches();
    }

    method AdjustValueRestore()
      requires Ready()
      modifies this`rawPixels, this`targetPixels, paintValue.pixels
      ensures Ready() && State() == BlendRestore(old(State()))
    {
      BlendRestoreCaches();
    }

    /** Drops the texture, the import settings, the editable copy and both
        caches. */
    method Dispose()
      modifies this
      ensures value == null && paintValue == null && IsNull()
      ensures importer == None && settings == None && platformSettings == None
      ensures rawPixels == None && targetPixels == None
      ensures format == old(format)
    {
      value := null;
      importer := None;
      settings := None;
      platformSettings := None;
      paintValue := null;
      rawPixels := None;
      targetPixels := None;
    }
  }
}
