/** The record a resize agent returns for a texture it padded: the asset
    path, the memory sizes before and after (as the engine reports them) and
    the sizes before and after. */
module ResizeFeedback {
  import opened Wrappers
  import opened Text

  datatype TextureResizeFeedback = TextureResizeFeedback(
    name: string,
    rawStorageMemory: int, rawRuntimeMemory: int,
    storageMemory: int, runtimeMemory: int,
    rawWidth: int, rawHeight: int,
    width: int, height: int)
  {
    /** Storage memory saved by the resize; negative when it grew. */
    function SavedStorageMemory(): int {
      rawStorageMemory - storageMemory
    }

    /** Runtime memory saved by the resize; negative when it grew. */
    function SavedRuntimeMemory(): int {
      rawRuntimeMemory - runtimeMemory
    }

    /** The size before the resize, as text; it reads back as the raw
        width and height. */
    function RawSize(): (s: string)
      ensures s == IntToString(rawWidth) + "x" + IntToString(rawHeight)
      ensures ParseSize(s) == Some((rawWidth, rawHeight))
    {
      SizeRoundTrip(rawWidth, rawHeight);
      SizeString(rawWidth, rawHeight)
    }

    /** The size after the resize, as text; it reads back as the new width
        and height. */
    function Size(): (s: string)
      ensures s == IntToString(width) + "x" + IntToString(height)
      ensures ParseSize(s) == Some((width, height))
    {
      SizeRoundTrip(width, height);
      SizeString(width, height)
    }

    /** The one-line summary, with `formatBytes` standing for the editor's
        byte formatter: the name, then the saved storage memory, the saved
        runtime memory, the raw size and the resized size, each as
        ", <title> [<value>]" and in that order, with nothing before,
        between or after them. */
    function ToString(formatBytes: int -> string): (s: string)
      ensures Laid5(s, name, Field(StorageTitle, formatBytes(SavedStorageMemory())),
                    Field(RuntimeTitle, formatBytes(SavedRuntimeMemory())),
                    Field(RawSizeTitle, RawSize()), Field(SizeTitle, Size()))
    {
      Join5(name, Field(StorageTitle, formatBytes(SavedStorageMemory())),
            Field(RuntimeTitle, formatBytes(SavedRuntimeMemory())),
            Field(RawSizeTitle, RawSize()), Field(SizeTitle, Size()))
    }
  }

  /** The titles of the summary's four entries. */
  const StorageTitle := "Saved Storage Memory"
  const RuntimeTitle := "Saved Runtime Memory"
  const RawSizeTitle := "Raw Size"
  const SizeTitle := "Resized Size"

  /** One entry of the summary: ", <title> [<value>]". */
  function Field(title: string, value: string): (f: string)
    ensures |f| == |title| + |value| + 5
  {
    ", " + title + " [" + value + "]"
  }

  /** An occurrence in a string is still there after text is appended. */
  lemma OccursAppendRight(x: string, y: string, p: string, i: nat)
    requires OccursAt(x, p, i)
    ensures OccursAt(x + y, p, i)
  {
    assert (x + y)[i..i + |p|] == x[i..i + |p|];
  }

  /** An occurrence moves right by the length of text put before it. */
  lemma OccursAppendLeft(x: string, y: string, p: string, i: nat)
    requires OccursAt(y, p, i)
    ensures OccursAt(x + y, p, |x| + i)
  {
    assert (x + y)[|x| + i..|x| + i + |p|] == y[i..i + |p|];
  }

  /** `s` is the five parts written one after another: each sits where
      the ones before it end, and together they make up all of `s`. */
  predicate Laid5(s: string, a: string, b: string, c: string, d: string, e: string) {
    |s| == |a| + |b| + |c| + |d| + |e| &&
    OccursAt(s, a, 0) && OccursAt(s, b, |a|) && OccursAt(s, c, |a| + |b|) &&
    OccursAt(s, d, |a| + |b| + |c|) && OccursAt(s, e, |a| + |b| + |c| + |d|)
  }

  /** Concatenating five parts lays them out one after another. */
  function Join5(a: string, b: string, c: string, d: string, e: string): (s: string)
    ensures Laid5(s, a, b, c, d, e)
  {
    assert OccursAt(a, a, 0) && OccursAt(b, b, 0) && OccursAt(c, c, 0) && OccursAt(d, d, 0) && OccursAt(e, e, 0);
    OccursAppendRight(a, b, a, 0);
    OccursAppendLeft(a, b, b, 0);
    var ab := a + b;
    OccursAppendRight(ab, c, a, 0);
    OccursAppendRight(ab, c, b, |a|);
    OccursAppendLeft(ab, c, c, 0);
    var abc := ab + c;
    OccursAppendRight(abc, d, a, 0);
    OccursAppendRight(abc, d, b, |a|);
    OccursAppendRight(abc, d, c, |a| + |b|);
    OccursAppendLeft(abc, d, d, 0);
    var abcd := abc + d;
    OccursAppendRight(abcd, e, a, 0);
    OccursAppendRight(abcd, e, b, |a|);
    OccursAppendRight(abcd, e, c, |a| + |b|);
    OccursAppendRight(abcd, e, d, |a| + |b| + |c|);
    OccursAppendLeft(abcd, e, e, 0);
    abcd + e
  }

  /** The saving is not guaranteed to be positive: padding adds pixels, so a
      resize that leaves the compression unchanged grows the texture. */
  lemma SavedMemoryCanBeNegative()
    ensures TextureResizeFeedback("a.png", 100, 400, 120, 512, 30, 30, 32, 32).SavedStorageMemory() < 0
    ensures TextureResizeFeedback("a.png", 100, 400, 120, 512, 30, 30, 32, 32).SavedRuntimeMemory() < 0
  {
  }
}
