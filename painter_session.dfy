/** The preview caches of the texture painter as values. A session is the
    painted texture together with the two caches the tonal previews keep:
    `raw`, the baseline the previews start from, and `target`, the fully
    saturated (or fully brightened) pixels the saturation and value previews
    blend toward. A cache is valid only when it holds exactly width * height
    colours; an invalid cache counts as absent. The painter class is proved
    to move through these states. */
module PainterSession {
  import opened Wrappers
  import opened Colors
  import opened Images

  datatype Mode = Brightness | Saturation | Value

  /** One button of the tonal panel: a preview at some level, Save or Restore. */
  datatype Command = Preview(mode: Mode, level: real) | Save(mode: Mode) | Restore(mode: Mode)

  datatype Session = Session(image: Image, raw: Option<seq<Color>>, target: Option<seq<Color>>)

  /** The only validity test the painter applies to a cache: its length. */
  predicate CacheValid(cache: Option<seq<Color>>, n: nat) {
    cache.Some? && |cache.value| == n
  }

  /** The pixels a preview starts from: the cached baseline when it is valid,
      otherwise the current pixels (which the preview then caches). */
  function Baseline(s: Session): (b: seq<Color>)
    requires s.image.Valid()
    ensures |b| == |s.image.pixels|
  {
    if CacheValid(s.raw, |s.image.pixels|) then s.raw.value else s.image.pixels
  }

  /** The pixels a saturation or value preview blends toward: the cached
      target when it is valid, otherwise `targetOf` applied to the current
      pixels. */
  function Target(s: Session, targetOf: Color -> Color): (t: seq<Color>)
    requires s.image.Valid()
    ensures |t| == |s.image.pixels|
  {
    if CacheValid(s.target, |s.image.pixels|) then s.target.value
    else seq(|s.image.pixels|, (i: int) requires 0 <= i < |s.image.pixels| => targetOf(s.image.pixels[i]))
  }

  /** AdjustBrightness: every pixel becomes its baseline scaled by
      `brightness`, keeping the baseline alpha; the baseline is cached. */
  function BrightnessPreview(s: Session, brightness: real): (r: Session)
    requires s.image.Valid()
    ensures r.image.Valid() && r.image.width == s.image.width && r.image.height == s.image.height
  {
    var base := Baseline(s);
    Session(s.image.(pixels := seq(|base|, (i: int) requires 0 <= i < |base| => Brighten(base[i], brightness))),
            Some(base), s.target)
  }

  /** AdjustSaturation and AdjustValue: every pixel becomes the linear blend
      from its baseline to its target at `level`; both caches are filled. */
  function BlendPreview(s: Session, level: real, targetOf: Color -> Color): (r: Session)
    requires s.image.Valid()
    ensures r.image.Valid() && r.image.width == s.image.width && r.image.height == s.image.height
  {
    var base := Baseline(s);
    var target := Target(s, targetOf);
    Session(s.image.(pixels := seq(|base|, (i: int) requires 0 <= i < |base| => Lerp(base[i], target[i], level))),
            Some(base), Some(target))
  }

  /** AdjustBrightnessSave: the baseline is dropped, the pixels and the
      target are kept. */
  function BrightnessSave(s: Session): (r: Session) {
    s.(raw := None)
  }

  /** AdjustSaturationSave and AdjustValueSave: both caches are dropped. */
  function BlendSave(s: Session): (r: Session) {
    s.(raw := None, target := None)
  }

  /** AdjustBrightnessRestore: with a valid baseline the pixels return to it;
      either way the baseline is dropped and the target kept. */
  function BrightnessRestore(s: Session): (r: Session)
    requires s.image.Valid()
  {
    if CacheValid(s.raw, |s.image.pixels|) then Session(s.image.(pixels := s.raw.value), None, s.target)
    else s.(raw := None)
  }

  /** AdjustSaturationRestore and AdjustValueRestore: only when both caches
      are valid do the pixels return to the baseline; both are dropped. */
  function BlendRestore(s: Session): (r: Session)
    requires s.image.Valid()
  {
    if CacheValid(s.raw, |s.image.pixels|) && CacheValid(s.target, |s.image.pixels|) then
      Session(s.image.(pixels := s.raw.value), None, None)
    else s.(raw := None, target := None)
  }

  /** One command, with SaturationMax and ValueMax as the two target maps. */
  function Step(s: Session, c: Command, saturationMax: Color -> Color, valueMax: Color -> Color): (r: Session)
    requires s.image.Valid()
    ensures r.image.Valid() && r.image.width == s.image.width && r.image.height == s.image.height
  {
    match c
    case Preview(Brightness, level) => BrightnessPreview(s, level)
    case Preview(Saturation, level) => BlendPreview(s, level, saturationMax)
    case Preview(Value, level) => BlendPreview(s, level, valueMax)
    case Save(Brightness) => BrightnessSave(s)
    case Save(_) => BlendSave(s)
    case Restore(Brightness) => BrightnessRestore(s)
    case Restore(_) => BlendRestore(s)
  }

  /** A sequence of commands applied in order. */
  function Run(s: Session, cmds: seq<Command>, saturationMax: Color -> Color, valueMax: Color -> Color): (r: Session)
    requires s.image.Valid()
    ensures r.image.Valid() && r.image.width == s.image.width && r.image.height == s.image.height
    decreases |cmds|
  {
    if |cmds| == 0 then s
    else Run(Step(s, cmds[0], saturationMax, valueMax), cmds[1..], saturationMax, valueMax)
  }

  predicate AllPreviews(cmds: seq<Command>) {
    forall i :: 0 <= i < |cmds| ==> cmds[i].Preview?
  }

  // ---------------------------------------------------------------------------
  // Properties of the caches

  /** Brightness 1.0 reproduces the baseline exactly; the preview keeps the
      baseline's alpha at every level. */
  lemma BrightnessNeutralAndKeepsAlpha(s: Session, brightness: real)
    requires s.image.Valid()
    ensures BrightnessPreview(s, 1.0).image.pixels == Baseline(s)
    ensures forall i :: 0 <= i < |s.image.pixels| ==>
              BrightnessPreview(s, brightness).image.pixels[i].a == Baseline(s)[i].a
  {
    var base := Baseline(s);
    assert forall i :: 0 <= i < |base| ==> BrightnessPreview(s, 1.0).image.pixels[i] == base[i];
  }

  /** A blend at level 0 (or below) is the baseline; at level 1 (or above)
      it is the target. */
  lemma BlendEndpoints(s: Session, targetOf: Color -> Color)
    requires s.image.Valid()
    ensures BlendPreview(s, 0.0, targetOf).image.pixels == Baseline(s)
    ensures BlendPreview(s, 1.0, targetOf).image.pixels == Target(s, targetOf)
  {
    var base, target := Baseline(s), Target(s, targetOf);
    assert forall i :: 0 <= i < |base| ==> BlendPreview(s, 0.0, targetOf).image.pixels[i] == base[i];
    assert forall i :: 0 <= i < |base| ==> BlendPreview(s, 1.0, targetOf).image.pixels[i] == target[i];
  }

  /** Successive previews of one mode do not compound: the second one is
      computed from the same baseline (and target) as the first, so only the
      last level counts. */
  lemma PreviewsDoNotCompound(s: Session, a: real, b: real, targetOf: Color -> Color)
    requires s.image.Valid()
    ensures BrightnessPreview(BrightnessPreview(s, a), b) == BrightnessPreview(s, b)
    ensures BlendPreview(BlendPreview(s, a, targetOf), b, targetOf) == BlendPreview(s, b, targetOf)
  {
    assert Baseline(BrightnessPreview(s, a)) == Baseline(s);
    assert Baseline(BlendPreview(s, a, targetOf)) == Baseline(s);
    assert Target(BlendPreview(s, a, targetOf), targetOf) == Target(s, targetOf);
  }

  /** Saturation and value share one target cache, validated only by its
      length: a value preview after a saturation preview blends toward the
      saturation target, exactly as a second saturation preview would. */
  lemma TargetSharedAcrossModes(s: Session, a: real, b: real, saturationMax: Color -> Color, valueMax: Color -> Color)
    requires s.image.Valid()
    ensures BlendPreview(BlendPreview(s, a, saturationMax), b, valueMax) == BlendPreview(s, b, saturationMax)
  {
    assert Baseline(BlendPreview(s, a, saturationMax)) == Baseline(s);
    assert Target(BlendPreview(s, a, saturationMax), valueMax) == Target(s, saturationMax);
  }

  /** Brightness commands never touch the target cache: brightness Save and
      Restore clear only the baseline. */
  lemma {:induction false} BrightnessKeepsTarget(s: Session, cmds: seq<Command>, saturationMax: Color -> Color, valueMax: Color -> Color)
    requires s.image.Valid()
    requires forall i :: 0 <= i < |cmds| ==> cmds[i].mode == Brightness
    ensures Run(s, cmds, saturationMax, valueMax).target == s.target
    decreases |cmds|
  {
    if |cmds| > 0 {
      var s1 := Step(s, cmds[0], saturationMax, valueMax);
      assert s1.target == s.target;
      BrightnessKeepsTarget(s1, cmds[1..], saturationMax, valueMax);
    }
  }

  /** Any non-empty run of previews, in any modes and at any levels, caches
      the baseline of the first one; Restore then returns the pixels to it
      bit for bit. The brightness Restore always does; the saturation and
      value Restore do once a saturation or value preview has filled the
      target cache. */
  lemma {:induction false} PreviewsThenRestore(s: Session, cmds: seq<Command>, saturationMax: Color -> Color, valueMax: Color -> Color)
    requires s.image.Valid() && |cmds| > 0 && AllPreviews(cmds)
    ensures var r := Run(s, cmds, saturationMax, valueMax);
            r.raw == Some(Baseline(s)) &&
            BrightnessRestore(r).image == s.image.(pixels := Baseline(s))
    ensures var r := Run(s, cmds, saturationMax, valueMax);
            CacheValid(r.target, |s.image.pixels|) <==>
              (CacheValid(s.target, |s.image.pixels|) || exists i :: 0 <= i < |cmds| && cmds[i].mode != Brightness)
    ensures var r := Run(s, cmds, saturationMax, valueMax);
            CacheValid(r.target, |s.image.pixels|) ==> BlendRestore(r).image == s.image.(pixels := Baseline(s))
    decreases |cmds|
  {
    var n := |s.image.pixels|;
    var s1 := Step(s, cmds[0], saturationMax, valueMax);
    assert s1.raw == Some(Baseline(s));
    assert Baseline(s1) == Baseline(s);
    assert CacheValid(s1.target, n) <==> CacheValid(s.target, n) || cmds[0].mode != Brightness;
    var r := Run(s, cmds, saturationMax, valueMax);
    assert r == Run(s1, cmds[1..], saturationMax, valueMax);
    if |cmds| > 1 {
      var rest := cmds[1..];
      assert AllPreviews(rest) by {
        forall i | 0 <= i < |rest| ensures rest[i].Preview? {
          assert rest[i] == cmds[i + 1];
        }
      }
      PreviewsThenRestore(s1, rest, saturationMax, valueMax);
      if exists i :: 0 <= i < |rest| && rest[i].mode != Brightness {
        var i :| 0 <= i < |rest| && rest[i].mode != Brightness;
        assert cmds[i + 1].mode != Brightness;
      }
      if exists i :: 0 <= i < |cmds| && cmds[i].mode != Brightness {
        var i :| 0 <= i < |cmds| && cmds[i].mode != Brightness;
        if i > 0 {
          assert rest[i - 1].mode != Brightness;
        }
      }
    } else {
      assert r == s1;
      assert forall i :: 0 <= i < |cmds| ==> cmds[i] == cmds[0];
    }
  }

  /** Save, then any non-empty run of previews, then the brightness Restore:
      the pixels are exactly those that were saved, whatever the caches held
      before. */
  lemma SaveThenPreviewsThenRestore(s: Session, mode: Mode, cmds: seq<Command>, saturationMax: Color -> Color, valueMax: Color -> Color)
    requires s.image.Valid() && |cmds| > 0 && AllPreviews(cmds)
    ensures var saved := Step(s, Save(mode), saturationMax, valueMax);
            BrightnessRestore(Run(saved, cmds, saturationMax, valueMax)).image == s.image
  {
    var saved := Step(s, Save(mode), saturationMax, valueMax);
    assert Baseline(saved) == s.image.pixels;
    PreviewsThenRestore(saved, cmds, saturationMax, valueMax);
  }

  /** Restore with an invalid cache, and Save always, leave the pixels as
      they are and drop the baseline. */
  lemma SaveAndFailedRestoreKeepPixels(s: Session, mode: Mode, saturationMax: Color -> Color, valueMax: Color -> Color)
    requires s.image.Valid()
    ensures Step(s, Save(mode), saturationMax, valueMax).image == s.image
    ensures Step(s, Save(mode), saturationMax, valueMax).raw == None
    ensures !CacheValid(s.raw, |s.image.pixels|) ==> Step(s, Restore(mode), saturationMax, valueMax).image == s.image
    ensures Step(s, Restore(mode), saturationMax, valueMax).raw == None
    ensures mode != Brightness ==> Step(s, Save(mode), saturationMax, valueMax).target == None &&
                                   Step(s, Restore(mode), saturationMax, valueMax).target == None
  {
  }
}
