/** The older padding agent (TextureAgent and its PNG, JPG and TGA
    subclasses), driven by TextureProcessor: the texture is loaded when the
    agent is made, and every format is padded with transparent pixels. */
module DataAgents {
  import opened Wrappers
  import opened Colors
  import opened Images
  import opened Textures
  import opened Padding
  import ResizeAgents

  /** Memory sizes as the editor's formatter prints them. */
  datatype MemoryText = MemoryText(storage: string, runtime: string)

  /** The record of one padded texture (TextrueProcessedFeedback); the
      texture reference it also carries is left out. */
  datatype ProcessedFeedback = ProcessedFeedback(
    name: string,
    rawStorageMemory: string, rawRuntimeMemory: string,
    storageMemory: string, runtimeMemory: string)

  /** What the data agents write: the transparent fill at the padded size,
      whatever the file format. */
  function DataPadded(img: Image): (r: Image)
    requires img.Valid() && img.width > 0 && img.height > 0
    ensures r.Valid() && r.width == PaddedDim(img.width) && r.height == PaddedDim(img.height)
    ensures forall x: nat, y: nat :: x < r.width && y < r.height ==>
              r.At(x, y) == if x < img.width && y < img.height then img.At(x, y) else Clear
  {
    var r := TransparentPadded(img, PaddedDim(img.width), PaddedDim(img.height));
    forall x: nat, y: nat | x < r.width && y < r.height
      ensures r.At(x, y) == if x < img.width && y < img.height then img.At(x, y) else Clear
    {
      TransparentPaddedAt(img, r.width, r.height, x, y);
    }
    r
  }

  /** No data agent overrides the fill, so they all pad like the PNG resize
      agent. */
  lemma DataPaddedIsTransparentFix(img: Image)
    requires img.Valid() && img.width > 0 && img.height > 0
    ensures DataPadded(img) == FixedToMultipleOf4(PNG, img)
  {
  }

  /** The JPG data agent and the JPG resize agent disagree: on a 1 x 1 image
      whose pixel is not Color.clear, the resize agent repeats the pixel
      into the padding and the data agent writes Color.clear there. */
  lemma JpgPathsDiffer(c: Color)
    requires c != Clear
    ensures var img := Image(1, 1, [c]);
            DataPadded(img) != FixedToMultipleOf4(JPG, img)
  {
    var img := Image(1, 1, [c]);
    PaddedDimLeast(1);
    assert PaddedDim(1) == 4;
    ClampPaddedFromSource(img, 4, 4, 3, 0);
    assert img.At(0, 0) == c;
    assert DataPadded(img).At(3, 0) == Clear;
    assert FixedToMultipleOf4(JPG, img).At(3, 0) == c;
  }

  class TextureAgent {
    const guid: string
    const path: string
    const fullPath: string
    /** Which subclass this is (PNG, JPG or TGA). */
    const format: FileFormat
    var value: Texture?
    /** The asset name, read from the texture when the agent is made. */
    const name: string
    const settings: Handle
    const platformSettings: Handle

    /** `path` is what the asset database maps the GUID to, `dataPath`
        stands for Application.dataPath, `asset` is the texture loaded from
        the path (it must exist: the source reads its name) and `current`
        what its importer reports. */
    constructor (guid: string, path: string, dataPath: string, format: FileFormat,
                 asset: Texture, current: ResizeAgents.ImportSettings)
      requires |path| >= 6
      ensures this.guid == guid && this.path == path && this.format == format
      ensures fullPath == dataPath + path[6..]
      ensures value == asset && name == asset.name
      ensures settings == current.settings && platformSettings == current.platformSettings
    {
      this.guid := guid;
      this.path := path;
      this.fullPath := dataPath + path[6..];
      this.format := format;
      value := asset;
      name := asset.name;
      settings := current.settings;
      platformSettings := current.platformSettings;
    }

    /** The texture is present and both its sides are multiples of 4. */
    predicate IsMultipleOf4()
      reads this, value
    {
      Compliant(value)
    }

    /** Pad the texture to multiple-of-4 dimensions. `reloaded` is what
        the asset database loads from the rewritten file and the two memory
        texts what the editor reports before and after. A compliant texture
        is left alone and there is no feedback; otherwise `written` is the
        transparent-padded texture written to the file. */
    method ResizeToMultipleOf4(reloaded: Texture?, rawMemory: MemoryText, newMemory: MemoryText)
      returns (feedback: Option<ProcessedFeedback>, written: Texture?)
      requires value != null && value.Valid()
      modifies this`value
      ensures if Compliant(old(value)) then
                feedback == None && written == null && value == old(value)
              else
                written != null && fresh(written) && written.Valid() &&
                written.Snapshot() == DataPadded(old(value).Snapshot()) &&
                feedback == Some(ProcessedFeedback(path, rawMemory.storage, rawMemory.runtime,
                                                   newMemory.storage, newMemory.runtime)) &&
                value == reloaded
    {
      if IsMultipleOf4() {
        return None, null;
      }
      var source := value;
      var widthDiff := source.width % 4;
      var heightDiff := source.height % 4;
      var width := if widthDiff == 0 then source.width else source.width + (4 - widthDiff);
      var height := if heightDiff == 0 then source.height else source.height + (4 - heightDiff);
      var texture := new Texture.Blank(width, height);
      ResizeAgents.SetNewTexturePixels(width, height, texture, source);
      value := reloaded;
      feedback := Some(ProcessedFeedback(path, rawMemory.storage, rawMemory.runtime,
                                         newMemory.storage, newMemory.runtime));
      written := texture;
    }
  }
}
