/** The batch resize agent (TextureResizeAgent and its PNG, JPG and TGA
    subclasses): one texture asset, identified by GUID and path, padded to
    multiple-of-4 dimensions and re-imported with its old import settings. */
module ResizeAgents {
  import opened Wrappers
  import opened Colors
  import opened Images
  import opened Textures
  import opened Text
  import opened Padding
  import opened ResizeFeedback
  import JpgResize

  /** The pixel format each agent creates its padded texture in (GetFormat):
      only a PNG agent keeps an alpha channel. */
  function AgentFormat(format: FileFormat): (f: TextureFormat) {
    if format == JPG then JpgResize.GetFormat()
    else if format == PNG then RGBA32
    else RGB24
  }

  lemma AgentFormatTable()
    ensures AgentFormat(PNG) == RGBA32
    ensures AgentFormat(JPG) == RGB24 && AgentFormat(TGA) == RGB24
  {
  }

  /** The memory sizes the editor reports for a texture (storage on disk,
      runtime in memory), in bytes. */
  datatype MemorySize = MemorySize(storage: int, runtime: int)

  /** What ReadSettings obtains from the asset's importer: the importer
      itself, its texture settings and its default platform settings. */
  datatype ImportSettings = ImportSettings(importer: Handle, settings: Handle, platformSettings: Handle)

  /** The base fill (transparent padding): every cell of `newTexture` inside
      the old texture is copied, every other cell becomes Color.clear. */
  method SetNewTexturePixels(width: nat, height: nat, newTexture: Texture, oldTexture: Texture)
    requires newTexture.Valid() && oldTexture.Valid()
    requires newTexture.width == width && newTexture.height == height
    requires newTexture.pixels != oldTexture.pixels
    modifies newTexture.pixels
    ensures newTexture.Valid()
    ensures newTexture.Snapshot() == TransparentPadded(old(oldTexture.Snapshot()), width, height)
  {
    ghost var source := oldTexture.Snapshot();
    ghost var padded := TransparentPadded(source, width, height);
    var h := 0;
    while h < height
      invariant 0 <= h <= height
      invariant newTexture.Valid() && newTexture.width == width && newTexture.height == height
      invariant oldTexture.Snapshot() == source
      invariant forall u: nat, v: nat :: u < width && v < h ==> newTexture.GetPixel(u, v) == padded.At(u, v)
    {
      var w := 0;
      while w < width
        invariant 0 <= w <= width
        invariant newTexture.Valid() && newTexture.width == width && newTexture.height == height
        invariant oldTexture.Snapshot() == source
        invariant forall u: nat, v: nat :: u < width && (v < h || (v == h && u < w)) ==>
                    newTexture.GetPixel(u, v) == padded.At(u, v)
      {
        TransparentPaddedAt(source, width, height, w, h);
        if h < oldTexture.height && w < oldTexture.width {
          newTexture.SetPixel(w, h, oldTexture.GetPixel(w, h));
        } else {
          newTexture.SetPixel(w, h, Clear);
        }
        w := w + 1;
      }
      h := h + 1;
    }
    SameImage(newTexture.Snapshot(), padded);
  }

  class TextureResizeAgent {
    const guid: string
    const path: string
    /** The absolute file path: the project's data directory followed by
        the path without its leading "Assets". */
    const fullPath: string
    /** Which subclass this is (PNG, JPG or TGA). */
    const format: FileFormat
    var value: Texture?
    var importer: Option<Handle>
    var settings: Option<Handle>
    var platformSettings: Option<Handle>

    /** `dataPath` stands for Application.dataPath; the path must be at
        least as long as "Assets", whose six characters it drops. */
    constructor (guid: string, path: string, dataPath: string, format: FileFormat)
      requires |path| >= 6
      ensures this.guid == guid && this.path == path && this.format == format
      ensures fullPath == dataPath + path[6..]
      ensures value == null && importer == None && settings == None && platformSettings == None
    {
      this.guid := guid;
      this.path := path;
      this.fullPath := dataPath + path[6..];
      this.format := format;
      value := null;
      importer := None;
      settings := None;
      platformSettings := None;
    }

    /** The texture is loaded and both its sides are multiples of 4. */
    predicate IsMultipleOf4()
      reads this, value
    {
      Compliant(value)
    }

    /** The size as "WxH": "0x0" before the texture is loaded, otherwise a
        text that reads back as the texture's width and height. */
    function Size(): (s: string)
      reads this, value
      ensures value == null ==> s == "0x0"
      ensures value != null ==> s == IntToString(value.width) + "x" + IntToString(value.height)
      ensures ParseSize(s) == if value == null then Some((0, 0)) else Some((value.width, value.height))
    {
      if value == null then
        assert ParseSize("0x0") == Some((0, 0)) by { SizeRoundTrip(0, 0); assert SizeString(0, 0) == "0x0"; }
        "0x0"
      else
        SizeRoundTrip(value.width, value.height);
        SizeString(value.width, value.height)
    }

    /** Load the asset at `path`; `asset` is what the asset database returns
        for it. Without `isReload` an already loaded texture is kept. */
    method LoadValue(isReload: bool, asset: Texture?)
      modifies this`value
      ensures value == if isReload || old(value) == null then asset else old(value)
    {
      if isReload {
        value := asset;
      } else if value == null {
        value := asset;
      }
    }

    /** Pad the texture to multiple-of-4 dimensions. The asset database and
        the importer are parameters: `loaded` is what loading the path
        returns, `current` what the importer reports before the rewrite,
        `reimporter` the importer after it, `reloaded` the texture the
        rewritten file imports as, and the two memory sizes what the editor
        reports before and after. A compliant texture is left alone and no
        feedback is given; otherwise `written` is the padded texture
        written to the file (clamp-to-edge for JPG, transparent otherwise)
        and the feedback names the path and both sizes. */
    method ResizeToMultipleOf4(loaded: Texture?, current: ImportSettings, reimporter: Handle,
                               reloaded: Texture, rawMemory: MemorySize, newMemory: MemorySize)
      returns (feedback: Option<TextureResizeFeedback>, written: Texture?)
      requires value != null || loaded != null
      requires value != null ==> value.Valid()
      requires loaded != null ==> loaded.Valid()
      requires reloaded.Valid()
      modifies this`value, this`importer, this`settings, this`platformSettings
      ensures var source := if old(value) == null then loaded else old(value);
              if old(Compliant(source)) then
                feedback == None && written == null && value == source &&
                importer == old(importer) && settings == old(settings) && platformSettings == old(platformSettings)
              else
                source != null && written != null && fresh(written) && written.Valid() &&
                written.Snapshot() == FixedToMultipleOf4(format, old(source.Snapshot())) &&
                feedback == Some(TextureResizeFeedback(path, rawMemory.storage, rawMemory.runtime,
                                                       newMemory.storage, newMemory.runtime,
                                                       old(source.width), old(source.height),
                                                       reloaded.width, reloaded.height)) &&
                value == reloaded && importer == Some(reimporter) &&
                settings == Some(current.settings) && platformSettings == Some(current.platformSettings)
    {
      LoadValue(false, loaded);
      if IsMultipleOf4() {
        return None, null;
      }
      // ReadSettings
      importer := Some(current.importer);
      settings := Some(current.settings);
      platformSettings := Some(current.platformSettings);

      // The feedback records the raw size first.
      var source := value;
      var rawWidth, rawHeight := source.width, source.height;
      var widthDiff := source.width % 4;
      var heightDiff := source.height % 4;
      var width := if widthDiff == 0 then source.width else source.width + (4 - widthDiff);
      var height := if heightDiff == 0 then source.height else source.height + (4 - heightDiff);
      assert width == PaddedDim(source.width) && height == PaddedDim(source.height);
      var texture := new Texture.Blank(width, height);
      if format == JPG {
        JpgResize.SetNewTexturePixels(width, height, texture, source);
      } else {
        SetNewTexturePixels(width, height, texture, source);
      }
      // ApplySettings fetches the importer of the rewritten file.
      importer := Some(reimporter);
      LoadValue(true, reloaded);
      feedback := Some(TextureResizeFeedback(path, rawMemory.storage, rawMemory.runtime,
                                             newMemory.storage, newMemory.runtime,
                                             rawWidth, rawHeight, value.width, value.height));
      written := texture;
    }

    /** Drop the texture and the importer references. */
    method Dispose()
      modifies this`value, this`importer, this`settings, this`platformSettings
      ensures value == null && importer == None && settings == None && platformSettings == None
    {
      value := null;
      importer := None;
      settings := None;
      platformSettings := None;
    }
  }
}
