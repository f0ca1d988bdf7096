# TextureProcessor in Dafny

A model of the core of TextureProcessor, a Unity editor add-on that edits
textures and pads texture assets to width and height multiples of 4 (the
block-compression requirement). The model covers:

- **The texture painter** (`Painter`, `PainterSession`). One texture is
  opened for editing and its editable copy is rewritten in place by each
  operation:
  - padding to multiple-of-4 size, with transparent fill, or clamp-to-edge
    fill for JPG;
  - cutting away blank outer rows and columns;
  - grayscale;
  - left-right and top-bottom mirrors;
  - the brightness, saturation and value previews, with the two preview
    caches they keep and their Save and Restore buttons.
- **The batch padding agents**:
  - `ResizeAgents` and `JpgResize`: the resize agents and the JPG
    override;
  - `DataAgents`: the older data agents.
  The padded-size arithmetic and both fill policies live once, in
  `Images` and `Padding`.
- **The batch drivers and the factory**:
  - `TextureResizer`: the resizer's loop with cancellation, and its
    Dispose;
  - `TextureProcessor`: the processor's loop;
  - `Utility`: the suffix dispatch that picks an agent kind for a path.
- **The bookkeeping of the two windows**:
  - `ResizeFeedback`: the resize feedback record;
  - `ResizerWindow`: the resizer window's filtered display list and
    pagination;
  - `FeedbackWindow`: the feedback window's clamped row window and memory
    totals.

Pure code is modelled as datatypes and functions:
- `Images.Image` is a width x height colour buffer in row-major order.
  The pixel at (x, y) sits at flat index `y * width + x`, as defined in
  `Grid`.
- The resize feedback record is a datatype.
- The suffix dispatch and the size texts are functions.

Code that updates state in place is modelled as classes with `modifies`
clauses:
- the engine texture `Textures.Texture`, with a pixel `array`;
- `TexturePainter`, the two agent classes and the two drivers;
- both windows.

Each in-place method is proved against one of the pure functions. Examples:
- `LeftRightMirror` leaves `MirroredLR` of the old pixels;
- `FixMultipleOf4` leaves `FixedToMultipleOf4` of the old pixels;
- the preview methods move the painter through the `PainterSession`
  states.

The properties are then proved about those functions.

What the editor obtains from the engine is passed in as parameters.
- The asset database and importer give loaded textures, importer
  handles, the reloaded texture and memory sizes.
- The progress bar's cancel answers are `cancel[i]`.
- Each agent's result in a batch is `results[i]`.
- The tonal maps SaturationMax, ValueMax and Grayscale, and the
  blank-pixel test, are function parameters.

## Model

| member | source | states |
|---|---|---|
| Grid.LastIsCorner | Editor/Painter/TexturePainter.cs:160-163 | The last flat index `height * width - 1` is the corner pixel (width - 1, height - 1), so the painter's corner branch reads the same pixel as the agents' GetPixel(width - 1, height - 1). |
| Images.PaddedDimLeast | Editor/Painter/TexturePainter.cs:134-137 | The padded size `n % 4 == 0 ? n : n + (4 - n % 4)` is divisible by 4 and lies in [n, n + 4). It equals n exactly when n % 4 == 0, and it is at most every multiple of 4 that is at least n. |
| Images.TransparentPaddedAt | Editor/Painter/TexturePainter.cs:182-195 | In the transparent fill, a pixel inside the old bounds is the old pixel and every other pixel is Color.clear. |
| Images.ClampPaddedFromSource | Editor/Resizer/Agent/JpgResizeAgent.cs:50-73 | A clamp-to-edge pixel is the old pixel at the coordinate clamped into the old bounds. This covers the right strip (oldW - 1, h), the bottom strip (w, oldH - 1) and the corner. The result holds only old pixels, so the Color.clear branch is unreachable. |
| Images.PaddingKeepsOldPixels | Editor/Painter/TexturePainter.cs:152-154 | Under both policies every pixel inside the old bounds keeps its place and colour. |
| Images.PaddingToSameSizeIsIdentity | Editor/Painter/TexturePainter.cs:130-131 | Padding to the size the image already has changes nothing, under either policy. |
| Images.MirroredLRAt | Editor/Painter/TexturePainter.cs:474-488 | After the left-right mirror, pixel (x, y) is the old (width - 1 - x, y). |
| Images.MirroredTBAt | Editor/Painter/TexturePainter.cs:493-507 | After the top-bottom mirror, pixel (x, y) is the old (x, height - 1 - y). |
| Images.MirrorsAreInvolutions | Editor/Painter/TexturePainter.cs:474-507 | Applying either mirror twice gives back the original buffer. |
| Images.MappedAt | Editor/Painter/TexturePainter.cs:269-279 | The per-pixel map puts f(old pixel) at every coordinate. |
| Images.FirstRow | Editor/Painter/TexturePainter.cs:209-220 | The first-row scan stops at the first non-blank row, or at height when every row is blank, and every row before it is blank. |
| Images.LastRow | Editor/Painter/TexturePainter.cs:221-232 | The scan from the bottom stops at the last non-blank row, or at -1 when every row is blank, and every row after it is blank. |
| Images.FirstColumn | Editor/Painter/TexturePainter.cs:233-244 | The same as FirstRow, for columns. |
| Images.LastColumn | Editor/Painter/TexturePainter.cs:245-256 | The same as LastRow, for columns. |
| Images.TrimBoundsEnclose | Editor/Painter/TexturePainter.cs:209-259 | Every non-blank pixel lies inside the trimming rectangle. An image with content has a non-empty rectangle inside its bounds. An all-blank image has startRow == height and endRow == -1, so the computed height is negative. |
| Images.CropAt | Editor/Painter/TexturePainter.cs:259-262 | Pixel (x, y) of the cut rectangle is the old pixel (x + startColumn, y + startRow). |
| Images.TrimmedAt | Editor/Painter/TexturePainter.cs:209-262 | The trimmed size is (endColumn - startColumn + 1) x (endRow - startRow + 1). Each new pixel (x, y) is the old (x + startColumn, y + startRow). |
| Images.TrimmedKeepsPixel | Editor/Painter/TexturePainter.cs:209-262 | A non-blank pixel lies inside the trimming rectangle and keeps its colour in the trimmed image, moved by the rectangle's corner. |
| Images.TrimmedRowKept | Editor/Painter/TexturePainter.cs:209-262 | A row that is not blank is inside the rectangle and is still not blank after trimming. |
| Images.TrimmedColumnKept | Editor/Painter/TexturePainter.cs:209-262 | A column that is not blank is inside the rectangle and is still not blank after trimming. |
| Images.TrimmedRowsNotBlank | Editor/Painter/TexturePainter.cs:209-232 | The first and last rows of a trimmed image are not blank. |
| Images.TrimmedColumnsNotBlank | Editor/Painter/TexturePainter.cs:233-256 | The first and last columns of a trimmed image are not blank. |
| Images.TrimFramedIsIdentity | Editor/Painter/TexturePainter.cs:209-262 | An image whose outer rows and columns are all non-blank trims to itself. |
| Images.TrimIdempotent | Editor/Painter/TexturePainter.cs:203-264 | Trimming a trimmed image removes nothing. |
| Colors.Brighten | Editor/Painter/TexturePainter.cs:300-302 | A brightened pixel keeps the baseline alpha, and brightness 1 returns the baseline pixel. |
| Colors.Lerp | Editor/Painter/TexturePainter.cs:365 | Color.Lerp returns `from` at factor 0 or below and `to` at factor 1 or above. It keeps alpha when both ends share it. |
| Padding.FixedToMultipleOf4Properties | Editor/Painter/TexturePainter.cs:128-198 | A compliant texture is returned unchanged. Otherwise each side becomes the least multiple of 4 at or above it, and every old pixel keeps its place. |
| Padding.Compliant | Editor/Resizer/Agent/TextureResizeAgent.cs:45-51 | IsMultipleOf4 holds exactly when the texture is present and padding would leave both sides as they are, that is, both are multiples of 4. It is false for null. |
| Painter.FillClampPadded | Editor/Painter/TexturePainter.cs:146-179 | The JPG branch's nested loop leaves the re-sized texture equal to the clamp-to-edge padding of the old pixel array. |
| Painter.FillTransparentPadded | Editor/Painter/TexturePainter.cs:180-196 | The other branch's nested loop leaves the transparent padding of the old pixel array. |
| Painter.MirrorRow | Editor/Painter/TexturePainter.cs:479-485 | Swapping pixel w with width - 1 - w for w below width / 2 reverses row h and leaves every other row alone. |
| Painter.MirrorColumn | Editor/Painter/TexturePainter.cs:498-504 | Swapping pixel h with height - 1 - h reverses column w and leaves every other column alone. |
| Painter.TexturePainter.constructor | Editor/Painter/TexturePainter.cs:79-82 | An empty painter has no texture and no caches, and its format is the enum default, JPG. |
| Painter.TexturePainter.OpenTexture | Editor/Painter/TexturePainter.cs:99-123 | The editable copy is a fresh clone with the texture's pixels. The format and import settings are stored, and the caches are left as they were. |
| Painter.TexturePainter.FixMultipleOf4 | Editor/Painter/TexturePainter.cs:128-198 | The editable texture becomes FixedToMultipleOf4 of its old pixels under its format. It is unchanged when already compliant. |
| Painter.TexturePainter.CutBlankPixels | Editor/Painter/TexturePainter.cs:203-264 | A JPG is left alone. A texture with content becomes Trimmed of its old pixels. An all-blank texture is left as it was, with outcome NoContent. |
| Painter.ScanStartRow | Editor/Painter/TexturePainter.cs:209-219 | The scan from the top stops at FirstRow: the first row that is not blank, or the height when every row is blank. |
| Painter.ScanEndRow | Editor/Painter/TexturePainter.cs:221-231 | The scan from the bottom stops at LastRow: the last row that is not blank, or -1 when every row is blank. |
| Painter.ScanStartColumn | Editor/Painter/TexturePainter.cs:233-243 | The scan from the left stops at FirstColumn: the first column that is not blank, or the width. |
| Painter.ScanEndColumn | Editor/Painter/TexturePainter.cs:245-255 | The scan from the right stops at LastColumn: the last column that is not blank, or -1. |
| Painter.TexturePainter.Grayscale | Editor/Painter/TexturePainter.cs:269-279 | Every pixel becomes gray(old pixel). |
| Painter.TexturePainter.LeftRightMirror | Editor/Painter/TexturePainter.cs:474-488 | The editable texture becomes MirroredLR of its old pixels. |
| Painter.TexturePainter.TopBottomMirror | Editor/Painter/TexturePainter.cs:493-507 | The editable texture becomes MirroredTB of its old pixels. |
| Painter.TexturePainter.CaptureBaseline | Editor/Painter/TexturePainter.cs:287-295 | The baseline cache becomes Baseline(state). It keeps a cache of width * height colours and otherwise takes a copy of the current pixels. |
| Painter.TexturePainter.CaptureTarget | Editor/Painter/TexturePainter.cs:352-360 | The target cache becomes Target(state): kept when its length is right, otherwise the map applied to the current pixels. |
| Painter.TexturePainter.WriteBack | Editor/Painter/TexturePainter.cs:327-333 | The pixels become the given colours, at the same size. |
| Painter.TexturePainter.AdjustBrightness | Editor/Painter/TexturePainter.cs:285-306 | The new state is BrightnessPreview of the old one: every pixel is Brighten(baseline pixel), and the baseline is cached. |
| Painter.TexturePainter.Blend | Editor/Painter/TexturePainter.cs:341-369 | The new state is BlendPreview of the old one: every pixel is Lerp(baseline, target, level), and both caches are filled. |
| Painter.TexturePainter.AdjustSaturation | Editor/Painter/TexturePainter.cs:341-369 | BlendPreview with SaturationMax as the target map. |
| Painter.TexturePainter.AdjustValue | Editor/Painter/TexturePainter.cs:408-436 | BlendPreview with ValueMax as the target map. |
| Painter.TexturePainter.AdjustBrightnessSave | Editor/Painter/TexturePainter.cs:311-314 | Only the baseline cache is dropped. Pixels and the target cache are kept. |
| Painter.TexturePainter.AdjustBrightnessRestore | Editor/Painter/TexturePainter.cs:319-335 | The new state is BrightnessRestore. With a valid baseline the pixels return to it. Either way the baseline is dropped and the target kept. |
| Painter.TexturePainter.BlendSaveCaches | Editor/Painter/TexturePainter.cs:374-378 | Both caches are dropped and the pixels are kept. |
| Painter.TexturePainter.BlendRestoreCaches | Editor/Painter/TexturePainter.cs:383-402 | The new state is BlendRestore. Only when both caches are valid do the pixels return to the baseline. Both caches are dropped. |
| Painter.TexturePainter.AdjustSaturationSave | Editor/Painter/TexturePainter.cs:374-378 | The same as BlendSaveCaches. |
| Painter.TexturePainter.AdjustSaturationRestore | Editor/Painter/TexturePainter.cs:383-402 | The same as BlendRestoreCaches. |
| Painter.TexturePainter.AdjustValueSave | Editor/Painter/TexturePainter.cs:441-445 | The same as BlendSaveCaches. |
| Painter.TexturePainter.AdjustValueRestore | Editor/Painter/TexturePainter.cs:450-469 | The same as BlendRestoreCaches. |
| Painter.TexturePainter.Dispose | Editor/Painter/TexturePainter.cs:532-547 | Texture, import settings, editable copy and both caches are all dropped, so the painter is null. |
| PainterSession.Baseline | Editor/Painter/TexturePainter.cs:287-295 | The baseline has one colour per pixel. It is the cache when the cache's length is right, otherwise the current pixels. |
| PainterSession.Target | Editor/Painter/TexturePainter.cs:352-360 | The target has one colour per pixel. |
| PainterSession.BrightnessNeutralAndKeepsAlpha | Editor/Painter/TexturePainter.cs:297-303 | The brightness preview at 1 reproduces the baseline, and at every level each pixel has the baseline's alpha. |
| PainterSession.BlendEndpoints | Editor/Painter/TexturePainter.cs:362-366 | The saturation or value preview at level 0 is the baseline and at level 1 the target. |
| PainterSession.PreviewsDoNotCompound | Editor/Painter/TexturePainter.cs:287-303 | Two previews in a row equal the second one alone, for both the brightness and the blend preview. |
| PainterSession.TargetSharedAcrossModes | Editor/Painter/TexturePainter.cs:352-427 | A value preview after a saturation preview blends toward the saturation target, because the target cache is judged only by its length. |
| PainterSession.BrightnessKeepsTarget | Editor/Painter/TexturePainter.cs:311-335 | No run of brightness commands touches the target cache. |
| PainterSession.PreviewsThenRestore | Editor/Painter/TexturePainter.cs:285-469 | After any non-empty run of previews, the baseline cache is the first preview's baseline. The brightness Restore returns exactly those pixels. The target cache is valid exactly when it was valid before or one of the previews was a saturation or value preview, and the blend Restore then also returns the baseline. |
| PainterSession.SaveThenPreviewsThenRestore | Editor/Painter/TexturePainter.cs:311-335 | Save, then previews, then the brightness Restore gives back exactly the saved pixels. |
| PainterSession.SaveAndFailedRestoreKeepPixels | Editor/Painter/TexturePainter.cs:311-402 | Save, and Restore with an invalid baseline, leave the pixels as they are. Both drop the baseline, and the saturation and value variants also drop the target. |
| PainterSession.BrightnessPreview | Editor/Painter/TexturePainter.cs:285-306 | The preview keeps the texture's size. What it computes is stated by the lemmas above. |
| PainterSession.BlendPreview | Editor/Painter/TexturePainter.cs:341-369 | The preview keeps the texture's size. What it computes is stated by the lemmas above. |
| PainterSession.Step | Editor/Painter/TexturePainter.cs:285-469 | No panel command changes the texture's size. |
| PainterSession.Run | Editor/Painter/TexturePainter.cs:285-469 | No sequence of panel commands changes the texture's size. |
| JpgResize.SetNewTexturePixels | Editor/Resizer/Agent/JpgResizeAgent.cs:44-77 | The new texture becomes the clamp-to-edge padding of the old one. The Clear branch is proved unreachable. |
| ResizeAgents.AgentFormatTable | Editor/Resizer/Agent/JpgResizeAgent.cs:22-25 | GetFormat gives RGBA32 for PNG and RGB24 for JPG and TGA. |
| ResizeAgents.SetNewTexturePixels | Editor/Resizer/Agent/TextureResizeAgent.cs:159-176 | The new texture becomes the transparent padding: in-bounds pixels are copied and every other cell is Color.clear. |
| ResizeAgents.TextureResizeAgent.constructor | Editor/Resizer/Agent/TextureResizeAgent.cs:76-81 | The full path is the data directory followed by the path without its leading six characters ("Assets"). Nothing is loaded yet. |
| ResizeAgents.TextureResizeAgent.Size | Editor/Resizer/Agent/TextureResizeAgent.cs:56-69 | "0x0" with no texture. Otherwise the decimal width, "x" and the decimal height, a text that reads back, through ParseSize, as the texture's width and height. |
| ResizeAgents.TextureResizeAgent.LoadValue | Editor/Resizer/Agent/TextureResizeAgent.cs:220-233 | A reload always takes the loaded asset. Otherwise the asset is taken only when no texture is held. |
| ResizeAgents.TextureResizeAgent.ResizeToMultipleOf4 | Editor/Resizer/Agent/TextureResizeAgent.cs:87-137 | A compliant texture gives no feedback, no write and no settings change. Otherwise the written texture is FixedToMultipleOf4 of the source under the agent's format. The feedback names the path, the sizes before and after and the memory sizes. The agent holds the reloaded texture and the re-read importer. |
| ResizeAgents.TextureResizeAgent.Dispose | Editor/Resizer/Agent/TextureResizeAgent.cs:238-244 | Value, Importer, Settings and PlatformSettings are all null. |
| DataAgents.DataPadded | Editor/Data/TextureAgent.cs:124-141 | The data agents' output has the padded size. In-bounds pixels are copied and every other pixel is Color.clear. |
| DataAgents.DataPaddedIsTransparentFix | Editor/Data/JpgAgent.cs:8-35 | No data agent overrides the fill, so every data agent, the JPG one included, pads like the PNG path. |
| DataAgents.JpgPathsDiffer | Editor/Data/TextureAgent.cs:124-141 | On a 1 x 1 JPG whose pixel is not clear, the data agent writes Color.clear where the resize agent repeats the pixel. |
| DataAgents.TextureAgent.constructor | Editor/Data/TextureAgent.cs:56-67 | Path, full path, the loaded texture, its name and the import settings are recorded. |
| DataAgents.TextureAgent.ResizeToMultipleOf4 | Editor/Data/TextureAgent.cs:73-102 | A compliant texture gives no feedback and no write. Otherwise the written texture is DataPadded of the old one, the feedback names the path and both memory sizes, and the agent holds the reloaded texture. |
| ResizeFeedback.TextureResizeFeedback.RawSize | Editor/Resizer/Feedback/TextrueResizeFeedback.cs:74-80 | The text is the decimal RawWidth, "x" and the decimal RawHeight, and it reads back as (RawWidth, RawHeight). |
| ResizeFeedback.TextureResizeFeedback.Size | Editor/Resizer/Feedback/TextrueResizeFeedback.cs:84-90 | The text is the decimal Width, "x" and the decimal Height, and it reads back as (Width, Height). |
| ResizeFeedback.TextureResizeFeedback.ToString | Editor/Resizer/Feedback/TextrueResizeFeedback.cs:92-97 | The summary is the name followed by four segments ", <title> [<value>]", laid end to end in this order: "Saved Storage Memory" with the formatted saved storage memory, "Saved Runtime Memory" with the formatted saved runtime memory, "Raw Size" with RawSize and "Resized Size" with Size. |
| ResizeFeedback.SavedMemoryCanBeNegative | Editor/Resizer/Feedback/TextrueResizeFeedback.cs:54-70 | The saved storage and runtime memory, raw minus resized, are negative for a texture that grew. |
| Text.SizeRoundTrip | Editor/Resizer/Feedback/TextrueResizeFeedback.cs:78 | The "WxH" text determines the width and height it was made from. |
| Text.ParseIntToString | Editor/Resizer/Feedback/TextrueResizeFeedback.cs:78 | Decimal formatting of an integer reads back as the integer. |
| TextureResizer.StopAfter | Editor/Resizer/TextureResizer.cs:38-50 | The number of agents that run is at most the agent count, and at least one when there are agents. No cancel comes before the last one that ran, and when the run stops early the last one cancelled. |
| TextureResizer.StopAfterNoCancel | Editor/Resizer/TextureResizer.cs:40-49 | Without a cancel every agent runs. |
| TextureResizer.StopAfterFirstCancel | Editor/Resizer/TextureResizer.cs:40-49 | With the first cancel after agent i, exactly agents 0..i run. |
| TextureResizer.TextureResizer.ResizeToMultipleOf4 | Editor/Resizer/TextureResizer.cs:35-53 | The trace of loop indices is 0..StopAfter - 1: the loop stops after the first agent whose progress bar is cancelled, or after the last agent. The feedbacks are exactly their non-null results in agent order, and there are no more of them than agents that ran. |
| TextureResizer.TextureResizer.Dispose | Editor/Resizer/TextureResizer.cs:58-68 | Every agent of the list is disposed and the list is dropped. Nothing happens when the list is already gone. |
| TextureProcessor.TextureProcessor.ResizeToMultipleOf4 | Editor/TextureProcessor.cs:33-45 | The trace of loop indices is 0..n - 1 for n agents. The feedbacks are the non-null results in order, at most one per agent. A feedback is in the result exactly when some agent returned it. |
| Wrappers.SomesMembers | Editor/TextureProcessor.cs:38-43 | Collecting the non-null results keeps exactly the present values. |
| Wrappers.SomesAllPresent | Editor/TextureProcessor.cs:38-43 | When every result is present nothing is dropped, and the order is kept. |
| Wrappers.SomesConcat | Editor/Resizer/TextureResizer.cs:37-45 | The results of a prefix come first, in order. |
| Utility.AgentFormatOf | Editor/Utility/Utility.cs:79-96 | PNG for exactly the paths ending ".png" or ".PNG". JPG for exactly ".jpg" or ".JPG". TGA for exactly ".tga" or ".TGA". No agent for every other path. |
| Utility.UnsupportedSuffixes | Editor/Utility/Utility.cs:82-95 | ".Png" and ".jpeg" get no agent, while ".JPG" gets a JPG agent. |
| Utility.KeptIndices | Editor/Utility/Utility.cs:63-70 | The kept GUID indices are ascending, in range, and are exactly the indices with a supported path. |
| Utility.CreataAgent | Editor/Utility/Utility.cs:79-96 | There is no agent exactly for an unsupported path. Otherwise a fresh agent of the suffix's kind is made for that GUID, path and texture. |
| Utility.CreataAgents | Editor/Utility/Utility.cs:60-72 | There is one fresh agent per kept GUID, in GUID order, with that GUID's path and kind, and at most one agent per GUID. |
| ResizerWindow.PageCountCovers | Editor/Resizer/TextureResizerWindow.cs:302 | The page count is ceil(count / size): (pages - 1) * size < count <= pages * size. |
| ResizerWindow.LoadedMembers | Editor/Resizer/TextureResizerWindow.cs:264-273 | The resizer keeps exactly the entries whose texture is loaded. |
| ResizerWindow.MatchingMembers | Editor/Resizer/TextureResizerWindow.cs:277-290 | An entry is displayed exactly when it is in the list, loaded, and its lower-cased name contains the lower-cased filter. |
| ResizerWindow.EmptyFilterShowsLoaded | Editor/Resizer/TextureResizerWindow.cs:262-290 | The empty filter's branch and the filtered branch agree: with "" every loaded entry is displayed. |
| ResizerWindow.LoadedSnoc | Editor/Resizer/TextureResizerWindow.cs:264-273 | Appending one entry adds it to the kept list exactly when it is loaded. |
| ResizerWindow.MatchingSnoc | Editor/Resizer/TextureResizerWindow.cs:278-290 | Appending one entry adds it to the display list exactly when it is shown. |
| ResizerWindow.ShownTest | Editor/Resizer/TextureResizerWindow.cs:262-290 | For a loaded entry, the source's two branches (empty filter, or lower-cased name containing the lower-cased filter) show exactly the entries Shown admits. |
| ResizerWindow.FilterAgents | Editor/Resizer/TextureResizerWindow.cs:262-291 | The RemoveAt(i); i-- loop leaves the master list equal to Loaded(list). It collects Matching(list, filter) as the display list. |
| ResizerWindow.RemoveFirst | Editor/Resizer/TextureResizerWindow.cs:341-342 | List.Remove drops the first occurrence when there is one, keeping the other elements in their order, and otherwise changes nothing. |
| ResizerWindow.EmptyListGivesNegativeIndex | Editor/Resizer/TextureResizerWindow.cs:302-310 | As written, ResetPage(false) on an empty list gives page -1. The first slot's index is then -48, which passes the `index < Count` guard. |
| ResizerWindow.ResetPageClamped | Editor/Resizer/TextureResizerWindow.cs:300-311 | The corrected page is never below 0 and is an existing page when there is one. It agrees with the source whenever there is at least one page. |
| ResizerWindow.DisplayIndexInRange | Editor/Resizer/TextureResizerWindow.cs:171-172 | On a valid page every slot index is at least 0, and the slots of page p are p * size up to (p + 1) * size. |
| ResizerWindow.EveryEntryOnAPage | Editor/Resizer/TextureResizerWindow.cs:171-172 | Entry k is in slot k % size of page k / size, which is an existing page. |
| ResizerWindow.ResizerWindow.constructor | Editor/Resizer/TextureResizerWindow.cs:31-34 | A new window shows 48 textures per page and starts with no pages, on page 0. |
| ResizerWindow.ResizerWindow.ResetDisplayAgents | Editor/Resizer/TextureResizerWindow.cs:254-294 | The resizer keeps only loaded entries. The display list is the entries shown under the name filter, in order. Paging restarts at page 0 and is consistent. |
| ResizerWindow.ResizerWindow.ResetPage | Editor/Resizer/TextureResizerWindow.cs:300-311 | The total is the page count. The current page is ResetPageClamped of the old one, which keeps the pages consistent. |
| ResizerWindow.ResizerWindow.PrevPage | Editor/Resizer/TextureResizerWindow.cs:316-322 | The page goes down one only when above 0, and consistency is kept. |
| ResizerWindow.ResizerWindow.NextPage | Editor/Resizer/TextureResizerWindow.cs:327-333 | The page goes up one only when below the last page, and consistency is kept. |
| ResizerWindow.ResizerWindow.RemoveAgent | Editor/Resizer/TextureResizerWindow.cs:339-345 | The agent's first occurrence leaves both lists. The page count is recounted for the shorter display list, and the current page is kept unless it is past the new last page, where it moves to that page (or 0 when no page is left); consistent pages stay consistent. |
| ResizerWindow.ResizerWindow.SlotAgent | Editor/Resizer/TextureResizerWindow.cs:171-174 | Slot (i, j) shows an entry exactly when its index is below the count, and that entry is in the display list. |
| FeedbackWindow.Contribution | Editor/Resizer/Feedback/TextrueResizeFeedbackWindow.cs:225-230 | One feedback's six contributions are balanced: saved = raw - resized, for storage and runtime. |
| FeedbackWindow.AccumulateAdds | Editor/Resizer/Feedback/TextrueResizeFeedbackWindow.cs:221-232 | Accumulating a list onto any totals adds the list's own totals. |
| FeedbackWindow.TotalsBalanced | Editor/Resizer/Feedback/TextrueResizeFeedbackWindow.cs:221-232 | Counted from zero, each saved total equals the raw total minus the resized total. |
| FeedbackWindow.RerunKeepsEarlierTotals | Editor/Resizer/Feedback/TextrueResizeFeedbackWindow.cs:221-232 | As written, calculating the totals of a second list while the window is open gives the sum of both lists' totals, which differs from the second list's totals whenever the first list's are not zero. |
| FeedbackWindow.RerunExample | Editor/Resizer/Feedback/TextrueResizeFeedbackWindow.cs:27-34 | A window that showed one feedback of 100 bytes of raw storage, opened again on another feedback of 50 bytes, shows 150 although the list shown holds 50. |
| FeedbackWindow.WindowBounds | Editor/Resizer/Feedback/TextrueResizeFeedbackWindow.cs:60-71 | The window always satisfies 0 <= IndexStart <= IndexCount <= count and holds min(_showNumber, count) rows. The start is v itself whenever a full window fits there. |
| FeedbackWindow.ResizeFeedbackWindow.constructor | Editor/Resizer/Feedback/TextrueResizeFeedbackWindow.cs:40-47 | Totals start at 0, the start at 0 and _showNumber at 50. |
| FeedbackWindow.ResizeFeedbackWindow.SetIndexStart | Editor/Resizer/Feedback/TextrueResizeFeedbackWindow.cs:58-72 | _indexStart is max(0, min(v, count - _showNumber)) and IndexCount is min(_indexStart + _showNumber, count), so 0 <= IndexStart <= IndexCount <= count. |
| FeedbackWindow.ResizeFeedbackWindow.CalculateTotal | Editor/Resizer/Feedback/TextrueResizeFeedbackWindow.cs:221-232 | Each feedback's six fields are added, in order, to the totals the window already holds. |
| FeedbackWindow.ResizeFeedbackWindow.OpenWindow | Editor/Resizer/Feedback/TextrueResizeFeedbackWindow.cs:19-35 | A missing or empty list changes nothing. Otherwise the window takes the list and starts at row 0. Its totals are the list's own and are balanced: this is the corrected version that resets the totals first. |
| FeedbackWindow.ResizeFeedbackWindow.VisibleRows | Editor/Resizer/Feedback/TextrueResizeFeedbackWindow.cs:168 | The detail loop visits exactly IndexStart, IndexStart + 1, ..., IndexCount - 1, all inside the list. |

## Left out

- File and asset I/O are not modelled, because they are engine calls with file-system effects. This covers:
  - encoding and WriteToFile;
  - AssetDatabase loads and ImportAsset;
  - ReadSettings, ApplySettings and SaveAndReimport, including the sprite overrides;
  - SetReadableEnable and SetReadableDisabled;
  - the painter's Save and SaveAs;
  - ExportToFile.
  What these calls return is passed in as parameters, for example `loaded`, `reloaded`, `current` and `reimporter`.
- The file round trip is not modelled. The texture the rewritten file imports as, `reloaded`, is a parameter, so the model does not prove that it equals the written texture.
- Memory sizes are opaque parameters, because GetStorageMemorySize works by reflection and GetRuntimeMemorySize uses the Profiler. The data path's memory texts (FormatBytes) are also opaque.
- Floating point: colour channels are exact reals in `Colors`. Brighten and Lerp follow Unity's Color operators on reals, without single-precision rounding.
- SaturationMax, ValueMax and Grayscale are function parameters, as are the blank-pixel test behind IsBlankRow and IsBlankColumn. They are not among the modelled files.
- The pixel format of a new texture is not modelled: with RGB24 (JPG and TGA agents) the engine drops alpha when pixels are written, but the model keeps every colour as written.
- Texture.Apply (the upload to the GPU) and DestroyImmediate are engine effects and are not modelled.
- Painter.TexturePainter.OpenTexture: the path, full path and anchor fields are not modelled. The asset database gives the path and it is used only by Save. The format and import settings are given as parameters instead of read.
- Painter.TexturePainter.CutBlankPixels: for an all-blank texture the source asks GetPixels for a rectangle of negative size and the engine rejects it. The model states only that the texture stays as it was, with outcome NoContent, and does not model the engine's error.
- Painter.TexturePainter.FixMultipleOf4 requires an opened texture, as do the other editing methods. The source would throw on a painter without one.
- ResizeAgents.TextureResizeAgent.ResizeToMultipleOf4 requires that a texture exists at the path, because the source dereferences Value and would throw when the asset is missing.
- DataAgents.TextureAgent.constructor requires a loaded asset, because the source reads its name. DataAgents.TextureAgent.ResizeToMultipleOf4 requires the texture to be present, for the same reason.
- ResizeAgents.TextureResizeAgent.constructor requires a path of at least six characters, because Substring(6) throws on a shorter one. The same holds for the data agent's constructor.
- TextureResizer.TextureResizer.ResizeToMultipleOf4 and ResizerWindow.ResizerWindow.ResetDisplayAgents require the agent list to be present. The source would throw on a disposed resizer.
- The progress bar's ratio (i / Count) and ClearProgressBar are display only and are not modelled.
- TextureResizerWindow calls a three-argument overload of ResizeToMultipleOf4 that Editor/Resizer/TextureResizer.cs does not contain. The model has the no-argument loop of that file.
- CreataResizeAgents, FindTextures and GetFileFormat are not part of this model. The resizer's and the processor's constructors take the agent list, and the painter takes the format.
- The Texture reference that both feedback records carry is left out, because it is only displayed.
- FeedbackWindow.ResizeFeedbackWindow.OpenWindow does not store the elapsed time (TimeSpan) the source keeps in the window, because it is display only: it is shown in the GUI and written to the exported report.
- Integer widths: a 32-bit C# int and the 64-bit memory sums are unbounded here. Texture sizes are far below the range, and overflow of the totals is not modelled.
- Text.ToLower lower-cases only ASCII letters. The source's culture-sensitive ToLower on other characters is not modelled.
- ResizerWindow.ResizerWindow.ResetDisplayAgents writes the resizer's list once, after the loop. The source removes entries from it one at a time, but nothing observes the intermediate lists.
- The windows' GUI is not modelled: OnGUI layout, scrolling, drag and drop, Update and Close, and TexturePainterWindow entirely. These are UI event handling with float geometry.
- Logging calls and the empty menu stub Utility.ResizeToMultipleOf4 are left out, because they have no effect on state.

## Findings

| source | as written | input that shows it | evidently intended | confidence | as-written member | corrected member |
|---|---|---|---|---|---|---|
| Editor/Resizer/TextureResizerWindow.cs:307-310 | `_currentPage = _currentPage >= _totalPage ? (_totalPage - 1) : _currentPage` gives -1 when the display list becomes empty (total 0). The GUI then computes index -48 for slot (0, 0) at line 171, which passes the `index < _agents.Count` guard at line 172 and indexes the list at -48. | Remove (or lose the texture of) the last displayed agent: RemoveAgent calls ResetPage(false) with 0 agents. | The page stays at 0 when there are no pages, so every slot index is at least 0. | medium, not executed | ResizerWindow.EmptyListGivesNegativeIndex | ResizerWindow.ResetPageClamped |
| Editor/Resizer/Feedback/TextrueResizeFeedbackWindow.cs:27-34, 221-232 | OpenWindow reuses the open window (GetWindow) and CalculateTotal adds to the six totals without resetting them, so the totals of every earlier run stay in the sum. | Open the feedback window for one feedback with 100 bytes of raw storage, then run the resizer again on other textures with the window still open, giving one feedback of 50 bytes: the raw-storage total shows 150 while the list shows only the 50-byte feedback. | The totals are those of the list shown, so each saved total is its raw total minus its resized total. | medium, not executed | FeedbackWindow.RerunKeepsEarlierTotals | FeedbackWindow.ResizeFeedbackWindow.OpenWindow |
