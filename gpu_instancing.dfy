/**
 * The GPU-instancing shader panel: on top of the shared sections it picks a
 * rendering mode (three exclusive keywords plus a four-row settings table
 * copied onto every selected material), a semitransparent-shadows toggle,
 * the `shouldShowAlphaCutoff` flag derived from both, and an emission slot
 * that also clears the EmissiveIsBlack GI flag.
 */
module GPUInstancing {
  import opened Unity
  import opened KeywordStore
  import opened Sections
  import opened Panel

  const RenderingCutoutKeyword := "_RENDERING_CUTOUT"
  const RenderingFadeKeyword := "_RENDERING_FADE"
  const RenderingTransparentKeyword := "_RENDERING_TRANSPARENT"
  const SemitransparentShadowsKeyword := "_SEMITRANSPARENT_SHADOWS"

  const RenderTypeTag := "RenderType"
  const SrcBlendProperty := "_SrcBlend"
  const DstBlendProperty := "_DstBlend"
  const ZWriteProperty := "_ZWrite"

  // ---------------------------------------------------------------------------
  // Rendering mode and its settings table

  datatype RenderingMode = Opaque | Cutout | Fade | Transparent

  /** `(int)mode`: the position of the mode in the enum declaration. */
  function ModeIndex(mode: RenderingMode): nat
  {
    match mode
    case Opaque => 0
    case Cutout => 1
    case Fade => 2
    case Transparent => 3
  }

  datatype RenderingSettings = RenderingSettings(
    queue: RenderQueue,
    renderType: string,
    srcBlend: BlendMode,
    dstBlend: BlendMode,
    zWrite: bool)

  /** `RenderingSettings.modes`: one row per mode, in enum order. */
  const Modes: seq<RenderingSettings> := [
    RenderingSettings(Geometry, "", One, Zero, true),
    RenderingSettings(AlphaTest, "TransparentCutout", One, Zero, true),
    RenderingSettings(RenderQueue.Transparent, "Transparent", SrcAlpha, OneMinusSrcAlpha, false),
    RenderingSettings(RenderQueue.Transparent, "Transparent", One, OneMinusSrcAlpha, false)
  ]

  /** `RenderingSettings.modes[(int)mode]`. */
  function SettingsFor(mode: RenderingMode): RenderingSettings
  {
    Modes[ModeIndex(mode)]
  }

  /** The table has exactly one row per mode: indexing by enum order is in bounds and one-to-one. */
  lemma ModesTableIndexedByMode(m1: RenderingMode, m2: RenderingMode)
    ensures |Modes| == 4 && ModeIndex(m1) < |Modes|
    ensures ModeIndex(m1) == ModeIndex(m2) ==> m1 == m2
    ensures m1 != m2 ==> SettingsFor(m1) != SettingsFor(m2)
  {
  }

  /**
   * The blending recipes the table encodes: the two opaque modes write depth
   * and do not blend (destination factor Zero), the two blended modes do
   * neither; Fade and Transparent differ only in the source factor; only
   * Opaque leaves the RenderType tag empty.
   */
  lemma SettingsRecipes(mode: RenderingMode)
    ensures SettingsFor(mode).zWrite <==> mode == Opaque || mode == Cutout
    ensures SettingsFor(mode).dstBlend == Zero <==> SettingsFor(mode).zWrite
    ensures SettingsFor(mode).srcBlend == SrcAlpha <==> mode == Fade
    ensures SettingsFor(mode).renderType == "" <==> mode == Opaque
    ensures SettingsFor(Fade) == SettingsFor(RenderingMode.Transparent).(srcBlend := SrcAlpha)
  {
  }

  /**
   * Render queues follow the enum order, so opaque geometry is drawn before
   * cut-out and blended geometry. This follows from Unity's RenderQueue
   * numbers; the panel itself promises nothing about it.
   */
  lemma QueueFollowsModeOrder(m1: RenderingMode, m2: RenderingMode)
    requires ModeIndex(m1) <= ModeIndex(m2)
    ensures QueueValue(SettingsFor(m1).queue) <= QueueValue(SettingsFor(m2).queue)
    ensures QueueValue(SettingsFor(m1).queue) == QueueValue(SettingsFor(m2).queue) <==>
      (m1 == m2 || (m1 == Fade && m2 == RenderingMode.Transparent))
  {
  }

  /** The rendering mode the popup shows: Cutout, then Fade, then Transparent are checked; Opaque otherwise. */
  function DecodeRenderingMode(keys: set<string>): RenderingMode
  {
    if RenderingCutoutKeyword in keys then Cutout
    else if RenderingFadeKeyword in keys then Fade
    else if RenderingTransparentKeyword in keys then RenderingMode.Transparent
    else Opaque
  }

  /** The three SetKeyword calls made when the user picks `mode`. */
  function EncodeRenderingMode(mode: RenderingMode): seq<KeywordWrite>
  {
    [KeywordWrite(RenderingCutoutKeyword, mode == Cutout),
     KeywordWrite(RenderingFadeKeyword, mode == Fade),
     KeywordWrite(RenderingTransparentKeyword, mode == RenderingMode.Transparent)]
  }

  /** The mode keywords in priority order, with the mode each one stands for. */
  const RenderingFlags: seq<Flag<RenderingMode>> := [
    Flag(RenderingCutoutKeyword, Cutout),
    Flag(RenderingFadeKeyword, Fade),
    Flag(RenderingTransparentKeyword, RenderingMode.Transparent)
  ]

  predicate IsModeKeyword(k: string)
  {
    k == RenderingCutoutKeyword || k == RenderingFadeKeyword || k == RenderingTransparentKeyword
  }

  lemma RenderingFlagsWellFormed()
    ensures DistinctKeywords(RenderingFlags) && DistinctValues(RenderingFlags)
  {
  }

  /** Decoding is the priority scan over the ordered keyword list, with Opaque as default. */
  lemma RenderingDecodeIsPriorityScan(keys: set<string>)
    ensures DecodeRenderingMode(keys) == Scan(keys, RenderingFlags, Opaque)
  {
    var r1 := RenderingFlags[1..];
    var r2 := r1[1..];
    assert r2 == [Flag(RenderingTransparentKeyword, RenderingMode.Transparent)] && r2[1..] == [];
    assert Scan(keys, r2, Opaque) == if RenderingTransparentKeyword in keys then RenderingMode.Transparent else Opaque;
    assert Scan(keys, r1, Opaque) == if RenderingFadeKeyword in keys then Fade else Scan(keys, r2, Opaque);
  }

  /** Encoding writes every keyword of the group, each enabled exactly for its own mode. */
  lemma RenderingEncodeWritesGroup(mode: RenderingMode)
    ensures EncodeRenderingMode(mode) == Encode(RenderingFlags, mode)
  {
  }

  /** decode(encode(mode)) == mode, whatever keywords the material had before. */
  lemma RenderingModeRoundTrip(keys: set<string>, mode: RenderingMode)
    ensures DecodeRenderingMode(ApplyWrites(keys, EncodeRenderingMode(mode))) == mode
  {
    RenderingFlagsWellFormed();
    RenderingEncodeWritesGroup(mode);
    RenderingDecodeIsPriorityScan(ApplyWrites(keys, EncodeRenderingMode(mode)));
    if mode != Opaque {
      assert RenderingFlags[ModeIndex(mode) - 1].value == mode;
    }
    ScanEncodeRoundTrip(keys, RenderingFlags, Opaque, mode);
  }

  /**
   * After encoding, the mode keyword of `mode` is the only one set (none for
   * Opaque), and every keyword outside the group is as it was.
   */
  lemma RenderingKeywordsExclusive(keys: set<string>, mode: RenderingMode)
    ensures var r := ApplyWrites(keys, EncodeRenderingMode(mode));
      (RenderingCutoutKeyword in r <==> mode == Cutout) &&
      (RenderingFadeKeyword in r <==> mode == Fade) &&
      (RenderingTransparentKeyword in r <==> mode == RenderingMode.Transparent) &&
      forall k :: !IsModeKeyword(k) ==> (k in r <==> k in keys)
  {
    RenderingFlagsWellFormed();
    RenderingEncodeWritesGroup(mode);
    EncodeSetsExactly(keys, RenderingFlags, mode);
    assert RenderingFlags[0] == Flag(RenderingCutoutKeyword, Cutout);
    assert RenderingFlags[1] == Flag(RenderingFadeKeyword, Fade);
    assert RenderingFlags[2] == Flag(RenderingTransparentKeyword, RenderingMode.Transparent);
  }

  /** At most one mode keyword is set after encoding: never two. */
  lemma RenderingKeywordsAtMostOne(keys: set<string>, mode: RenderingMode, k1: string, k2: string)
    requires IsModeKeyword(k1) && IsModeKeyword(k2)
    requires k1 in ApplyWrites(keys, EncodeRenderingMode(mode)) && k2 in ApplyWrites(keys, EncodeRenderingMode(mode))
    ensures k1 == k2 && mode != Opaque
  {
    RenderingKeywordsExclusive(keys, mode);
  }

  // ---------------------------------------------------------------------------
  // Writing a settings row onto materials

  /** The five writes of the settings loop on one material. */
  function WrittenSettings(s: MaterialState, row: RenderingSettings): MaterialState
  {
    s.(renderQueue := QueueValue(row.queue),
       tags := s.tags[RenderTypeTag := row.renderType],
       ints := s.ints[SrcBlendProperty := BlendValue(row.srcBlend)]
                     [DstBlendProperty := BlendValue(row.dstBlend)]
                     [ZWriteProperty := if row.zWrite then 1 else 0])
  }

  /** Every selected material after the settings loop. */
  function WithSettings(states: seq<MaterialState>, row: RenderingSettings): seq<MaterialState>
  {
    seq(|states|, j requires 0 <= j < |states| => WrittenSettings(states[j], row))
  }

  /**
   * A material that received a row reads the row back: its queue, RenderType
   * tag and blend factors are the row's, `_ZWrite` is 1 exactly when the row
   * writes depth, and its keywords, GI flags and other tags and ints are
   * untouched.
   */
  lemma WrittenSettingsReadBack(s: MaterialState, row: RenderingSettings)
    ensures var t := WrittenSettings(s, row);
      t.renderQueue == QueueValue(row.queue) &&
      RenderTypeTag in t.tags && t.tags[RenderTypeTag] == row.renderType &&
      SrcBlendProperty in t.ints && t.ints[SrcBlendProperty] == BlendValue(row.srcBlend) &&
      DstBlendProperty in t.ints && t.ints[DstBlendProperty] == BlendValue(row.dstBlend) &&
      ZWriteProperty in t.ints && (t.ints[ZWriteProperty] == 1 <==> row.zWrite) &&
      (t.ints[ZWriteProperty] == 0 <==> !row.zWrite) &&
      t.keywords == s.keywords && t.giFlags == s.giFlags &&
      (forall k :: k != RenderTypeTag ==> (k in t.tags <==> k in s.tags) && (k in s.tags ==> t.tags[k] == s.tags[k])) &&
      (forall k :: k != SrcBlendProperty && k != DstBlendProperty && k != ZWriteProperty ==>
         (k in t.ints <==> k in s.ints) && (k in s.ints ==> t.ints[k] == s.ints[k]))
  {
  }

  /** Writing the same row twice is writing it once, so a material selected twice ends the same. */
  lemma WrittenSettingsIdempotent(s: MaterialState, row: RenderingSettings)
    ensures WrittenSettings(WrittenSettings(s, row), row) == WrittenSettings(s, row)
  {
    var t := WrittenSettings(s, row);
    assert WrittenSettings(t, row).tags == t.tags;
    assert WrittenSettings(t, row).ints == t.ints;
  }

  /**
   * The render queue and source blend factor a mode writes identify the mode:
   * two materials that received rows agreeing on both received the same mode.
   * This follows from Unity's RenderQueue and BlendMode numbers; the panel
   * itself promises nothing about it.
   */
  lemma WrittenSettingsIdentifyMode(s1: MaterialState, s2: MaterialState, m1: RenderingMode, m2: RenderingMode)
    requires WrittenSettings(s1, SettingsFor(m1)).renderQueue == WrittenSettings(s2, SettingsFor(m2)).renderQueue
    requires WrittenSettings(s1, SettingsFor(m1)).ints[SrcBlendProperty] == WrittenSettings(s2, SettingsFor(m2)).ints[SrcBlendProperty]
    ensures m1 == m2
  {
    WrittenSettingsReadBack(s1, SettingsFor(m1));
    WrittenSettingsReadBack(s2, SettingsFor(m2));
  }

  /** What a mode change does to the selection: the three keyword writes, then the settings row. */
  function ModeChange(states: seq<MaterialState>, mode: RenderingMode): seq<MaterialState>
  {
    WithSettings(WithKeywords(states, EncodeRenderingMode(mode)), SettingsFor(mode))
  }

  /**
   * After a mode change every selected material decodes to the chosen mode and
   * carries that mode's queue, RenderType, blend factors and depth write; the
   * same values on every material, whatever each held before.
   */
  lemma ModeChangeUniform(states: seq<MaterialState>, mode: RenderingMode, j: nat)
    requires j < |states|
    ensures var t := ModeChange(states, mode)[j]; var row := SettingsFor(mode);
      DecodeRenderingMode(t.keywords) == mode &&
      t.renderQueue == QueueValue(row.queue) &&
      t.tags[RenderTypeTag] == row.renderType &&
      t.ints[SrcBlendProperty] == BlendValue(row.srcBlend) &&
      t.ints[DstBlendProperty] == BlendValue(row.dstBlend) &&
      (t.ints[ZWriteProperty] == 1 <==> row.zWrite) &&
      t.giFlags == states[j].giFlags
  {
    var mid := WithKeywords(states, EncodeRenderingMode(mode))[j];
    RenderingModeRoundTrip(states[j].keywords, mode);
    WrittenSettingsReadBack(mid, SettingsFor(mode));
  }

  /** The three SetKeyword calls of a mode change, on every target. */
  method WriteModeKeywords(editor: MaterialEditor, mode: RenderingMode)
    modifies editor.targets[..]
    ensures editor.States() == WithKeywords(old(editor.States()), EncodeRenderingMode(mode))
  {
    ghost var before := editor.States();
    var ws := EncodeRenderingMode(mode);
    SetKeyword(editor, RenderingCutoutKeyword, mode == Cutout);
    SetKeyword(editor, RenderingFadeKeyword, mode == Fade);
    WithKeywordsAppend(before, [ws[0]], [ws[1]]);
    assert [ws[0]] + [ws[1]] == ws[..2];
    SetKeyword(editor, RenderingTransparentKeyword, mode == RenderingMode.Transparent);
    WithKeywordsAppend(before, ws[..2], [ws[2]]);
    assert ws[..2] + [ws[2]] == ws;
  }

  /**
   * The settings loop of a mode change: every target gets the row's render
   * queue, RenderType tag, blend factors and depth write.
   */
  method WriteSettings(editor: MaterialEditor, settings: RenderingSettings)
    modifies editor.targets[..]
    ensures editor.States() == WithSettings(old(editor.States()), settings)
  {
    var targets := editor.targets;
    ghost var before := editor.States();
    ghost var done := WithSettings(before, settings);
    for i := 0 to targets.Length
      invariant before == old(editor.States())
      invariant Progress(editor.States(), before, done, i)
    {
      ghost var prev := editor.States();
      var m := targets[i];
      WriteSettingsOn(m, settings);
      forall j | 0 <= j < targets.Length
        ensures editor.States()[j] == done[j] || (i + 1 <= j && editor.States()[j] == before[j])
      {
        if targets[j] == m {
          assert before[j] == before[i];
          WrittenSettingsIdempotent(before[i], settings);
        } else {
          assert editor.States()[j] == prev[j];
        }
      }
    }
  }

  /** The body of WriteSettings' loop: one settings row written onto one material. */
  method WriteSettingsOn(m: Material, settings: RenderingSettings)
    modifies m
    ensures m.State() == WrittenSettings(old(m.State()), settings)
  {
    m.renderQueue := QueueValue(settings.queue);
    m.SetOverrideTag(RenderTypeTag, settings.renderType);
    m.SetInt(SrcBlendProperty, BlendValue(settings.srcBlend));
    m.SetInt(DstBlendProperty, BlendValue(settings.dstBlend));
    m.SetInt(ZWriteProperty, if settings.zWrite then 1 else 0);
  }

  /** A mode change on every target: the mode keywords, then the settings row. */
  method ApplyRenderingMode(editor: MaterialEditor, mode: RenderingMode)
    modifies editor.targets[..]
    ensures editor.States() == ModeChange(old(editor.States()), mode)
  {
    WriteModeKeywords(editor, mode);
    WriteSettings(editor, Modes[ModeIndex(mode)]);
  }

  /** A mode change leaves every keyword outside the mode group as it was. */
  lemma ModeChangeKeepsOtherKeywords(states: seq<MaterialState>, mode: RenderingMode, j: nat, k: string)
    requires j < |states|
    requires !IsModeKeyword(k)
    ensures k in ModeChange(states, mode)[j].keywords <==> k in states[j].keywords
  {
    RenderingKeywordsExclusive(states[j].keywords, mode);
  }

  // ---------------------------------------------------------------------------
  // Alpha cutoff visibility

  /** The modes for which the semitransparent-shadows toggle is drawn. */
  predicate IsSemitransparent(mode: RenderingMode)
  {
    mode == Fade || mode == RenderingMode.Transparent
  }

  /**
   * The final value of `shouldShowAlphaCutoff` after DoRenderingMode:
   * `decoded` is the mode read from the keywords before the popup, `mode`
   * the popup's value and `shadows` the toggle's value.
   */
  function AlphaCutoffFlag(decoded: RenderingMode, mode: RenderingMode, shadows: bool): bool
  {
    decoded == Cutout || (IsSemitransparent(mode) && !shadows)
  }

  /** The shadows write leaves the mode keywords, and so the decoded mode, alone. */
  lemma ShadowsWriteKeepsMode(keys: set<string>, shadows: bool)
    ensures DecodeRenderingMode(ApplyWrites(keys, [KeywordWrite(SemitransparentShadowsKeyword, shadows)])) == DecodeRenderingMode(keys)
  {
    ApplyWritesSingle(keys, KeywordWrite(SemitransparentShadowsKeyword, shadows));
  }

  /**
   * On the redraw after the user picked `mode` (and, when DoRenderingMode drew
   * the shadows toggle, changed it to `shadowsChosen`), the target decodes to
   * `mode`, its shadows keyword is the toggle's new value or else its old one,
   * and the alpha cutoff slider is shown exactly for Cutout and for a blended
   * mode without semitransparent shadows. The frame of the change itself still
   * uses the old decoded mode.
   */
  lemma AlphaCutoffSettles(states: seq<MaterialState>, mode: RenderingMode, shadowsChanged: bool, shadowsChosen: bool)
    requires |states| > 0
    ensures var keys := RenderingModeEffect(states, true, mode, shadowsChanged, shadowsChosen)[0].keywords;
      var decoded := DecodeRenderingMode(keys);
      var shadows := SemitransparentShadowsKeyword in keys;
      decoded == mode &&
      (shadows <==> if IsSemitransparent(mode) && shadowsChanged then shadowsChosen
                    else SemitransparentShadowsKeyword in states[0].keywords) &&
      (AlphaCutoffFlag(decoded, decoded, shadows) <==> mode == Cutout || (IsSemitransparent(mode) && !shadows))
  {
    var changedStates := ModeChange(states, mode);
    ModeChangeUniform(states, mode, 0);
    ModeChangeKeepsOtherKeywords(states, mode, 0, SemitransparentShadowsKeyword);
    if IsSemitransparent(mode) && shadowsChanged {
      var w := KeywordWrite(SemitransparentShadowsKeyword, shadowsChosen);
      ShadowsWriteKeepsMode(changedStates[0].keywords, shadowsChosen);
      ApplyWritesSingle(changedStates[0].keywords, w);
    }
  }

  // ---------------------------------------------------------------------------
  // Emission

  /** The loop `globalIlluminationFlags &= ~EmissiveIsBlack` over the selection. */
  function WithoutEmissiveBlack(states: seq<MaterialState>): seq<MaterialState>
  {
    seq(|states|, j requires 0 <= j < |states| => states[j].(giFlags := states[j].giFlags - {EmissiveIsBlack}))
  }

  /**
   * What DoEmission does to the selection: the lightmap-emission popup's
   * write, then, when the section's change check reports a change, the
   * `_EMISSION_MAP` write for a replaced texture and the EmissiveIsBlack clear.
   */
  function EmissionEffect(states: seq<MaterialState>, e: TextureEdit, lightmap: LightmapEmissionEdit): seq<MaterialState>
  {
    var shown := WithLightmapEmission(states, lightmap);
    if e.changed then WithoutEmissiveBlack(WithKeywords(shown, ReplacementWrites(EmissionMapKeyword, e)))
    else shown
  }

  /**
   * The GI flags after DoEmission, for every target: EmissiveIsBlack is gone
   * exactly when the section reported a change (and, under the assumed popup
   * write, stays as it was otherwise); the emissive bits are the popup's
   * choice when the popup changed and the target's own otherwise. Queue, tags
   * and ints stay, and with no change anywhere nothing moves under that
   * assumption.
   */
  lemma EmissionClearsOnlyEmissiveIsBlack(states: seq<MaterialState>, e: TextureEdit,
                                          lightmap: LightmapEmissionEdit, j: nat)
    requires j < |states|
    ensures var t := EmissionEffect(states, e, lightmap)[j];
      var s := states[j];
      (EmissiveIsBlack in t.giFlags <==> !e.changed && EmissiveIsBlack in s.giFlags) &&
      (forall f :: f != EmissiveIsBlack ==>
         (f in t.giFlags <==> if lightmap.changed then f in EmissiveBits(lightmap.chosen) else f in s.giFlags)) &&
      t.renderQueue == s.renderQueue && t.tags == s.tags && t.ints == s.ints &&
      (!e.changed && !lightmap.changed ==> t == s)
  {
    LightmapEmissionWritesEmissiveBits(states, lightmap, j);
  }

  /**
   * DoEmission keeps `_EMISSION_MAP` matching the emission texture: on a
   * target where the keyword matched the texture before, it matches the
   * texture on show afterwards.
   */
  lemma EmissionMapFollowsTexture(states: seq<MaterialState>, e: TextureEdit,
                                  lightmap: LightmapEmissionEdit, j: nat)
    requires j < |states|
    requires EmissionMapKeyword in states[j].keywords <==> IsAssigned(e.before)
    requires e.changed || e.before == e.after
    ensures EmissionMapKeyword in EmissionEffect(states, e, lightmap)[j].keywords <==> IsAssigned(e.after)
  {
    LightmapEmissionWritesEmissiveBits(states, lightmap, j);
    ReplacementWritesKeepSync(states[j].keywords, EmissionMapKeyword, e);
  }

  /**
   * The block DoEmission runs when its change check reports a change: the
   * `_EMISSION_MAP` write for a replaced texture, then the EmissiveIsBlack clear.
   */
  method WriteEmissionChange(editor: MaterialEditor, e: TextureEdit)
    modifies editor.targets[..]
    ensures editor.States() ==
      if e.changed then WithoutEmissiveBlack(WithKeywords(old(editor.States()), ReplacementWrites(EmissionMapKeyword, e)))
      else old(editor.States())
  {
    if e.changed {
      ghost var before := editor.States();
      if e.before != e.after {
        SetKeyword(editor, EmissionMapKeyword, IsAssigned(e.after));
      } else {
        WithKeywordsNone(before);
      }
      var targets := editor.targets;
      ghost var mid := editor.States();
      ghost var done := WithoutEmissiveBlack(mid);
      label Written:
      for i := 0 to targets.Length
        invariant mid == old@Written(editor.States())
        invariant Progress(editor.States(), mid, done, i)
      {
        ghost var prev := editor.States();
        var m := targets[i];
        m.giFlags := m.giFlags - {EmissiveIsBlack};
        forall j | 0 <= j < targets.Length
          ensures editor.States()[j] == done[j] || (i + 1 <= j && editor.States()[j] == mid[j])
        {
          if targets[j] == m {
            assert mid[j] == mid[i];
          } else {
            assert editor.States()[j] == prev[j];
          }
        }
      }
    }
  }

  /**
   * What DoRenderingMode does to the selection: a mode change when the popup
   * changed, then the shadows write when the mode on show is a blended one and
   * the toggle changed.
   */
  function RenderingModeEffect(states: seq<MaterialState>, changed: bool, chosen: RenderingMode,
                               shadowsChanged: bool, shadowsChosen: bool): seq<MaterialState>
    requires |states| > 0
  {
    var mode := if changed then chosen else DecodeRenderingMode(states[0].keywords);
    var afterMode := if changed then ModeChange(states, chosen) else states;
    if IsSemitransparent(mode) && shadowsChanged
    then WithKeywords(afterMode, [KeywordWrite(SemitransparentShadowsKeyword, shadowsChosen)])
    else afterMode
  }

  /** EmissiveIsBlack cleared on every target when `clear` holds. */
  function ClearedIf(states: seq<MaterialState>, clear: bool): seq<MaterialState>
  {
    if clear then WithoutEmissiveBlack(states) else states
  }

  lemma ClearCommutesWithKeywords(states: seq<MaterialState>, ws: seq<KeywordWrite>)
    ensures WithKeywords(WithoutEmissiveBlack(states), ws) == WithoutEmissiveBlack(WithKeywords(states, ws))
  {
  }

  lemma LightmapEmissionCommutesWithKeywords(states: seq<MaterialState>, lightmap: LightmapEmissionEdit,
                                             ws: seq<KeywordWrite>)
    ensures WithKeywords(WithLightmapEmission(states, lightmap), ws)
         == WithLightmapEmission(WithKeywords(states, ws), lightmap)
  {
  }

  /**
   * DoMain's six sections in order, with the emission slot's GI writes moved
   * out: the popup's first, the EmissiveIsBlack clear last.
   */
  lemma MainInOrder(states: seq<MaterialState>, s: seq<seq<KeywordWrite>>, e: TextureEdit,
                    lightmap: LightmapEmissionEdit)
    requires |s| >= 6 && s[4] == ReplacementWrites(EmissionMapKeyword, e)
    ensures WithKeywords(EmissionEffect(WithKeywords(WithKeywords(WithKeywords(WithKeywords(
              states, s[0]), s[1]), s[2]), s[3]), e, lightmap), s[5])
         == ClearedIf(WithKeywords(WithLightmapEmission(states, lightmap), Concat(s[..6])), e.changed)
  {
    var x1 := WithKeywords(states, s[0]);
    var x2 := WithKeywords(x1, s[1]);
    var x3 := WithKeywords(x2, s[2]);
    var x := WithKeywords(x3, s[3]);
    LightmapEmissionCommutesWithKeywords(states, lightmap, s[0]);
    LightmapEmissionCommutesWithKeywords(x1, lightmap, s[1]);
    LightmapEmissionCommutesWithKeywords(x2, lightmap, s[2]);
    LightmapEmissionCommutesWithKeywords(x3, lightmap, s[3]);
    var y := WithLightmapEmission(x, lightmap);
    if e.changed {
      ClearCommutesWithKeywords(WithKeywords(y, s[4]), s[5]);
    } else {
      WithKeywordsNone(y);
    }
    MainSectionsInOrder(WithLightmapEmission(states, lightmap), s);
  }

  /**
   * The sections drawn after DoRenderingMode leave what it wrote alone: every
   * target keeps its decoded mode, its semitransparent-shadows keyword, its
   * render queue, tags and int properties.
   */
  lemma RedrawKeepsRenderingState(states: seq<MaterialState>, f: PanelEdits, lightmap: LightmapEmissionEdit,
                                  clear: bool, j: nat)
    requires j < |states|
    ensures var t := ClearedIf(WithKeywords(WithLightmapEmission(states, lightmap),
                                            Concat(PanelSections(f, true))), clear)[j];
      DecodeRenderingMode(t.keywords) == DecodeRenderingMode(states[j].keywords) &&
      (SemitransparentShadowsKeyword in t.keywords <==> SemitransparentShadowsKeyword in states[j].keywords) &&
      t.renderQueue == states[j].renderQueue && t.tags == states[j].tags && t.ints == states[j].ints
  {
    LightmapEmissionWritesEmissiveBits(states, lightmap, j);
    PanelLeavesOtherKeywords(states[j].keywords, f, true);
    assert !IsPanelKeyword(RenderingCutoutKeyword) && !IsPanelKeyword(RenderingFadeKeyword);
    assert !IsPanelKeyword(RenderingTransparentKeyword) && !IsPanelKeyword(SemitransparentShadowsKeyword);
  }

  /** DoSecondary's two sections after DoMain complete the redraw's keyword writes. */
  lemma SecondaryAfterMain(states: seq<MaterialState>, s: seq<seq<KeywordWrite>>, clear: bool)
    requires |s| == 8
    ensures WithKeywords(ClearedIf(WithKeywords(states, Concat(s[..6])), clear), s[6] + s[7])
         == ClearedIf(WithKeywords(states, Concat(s)), clear)
  {
    var x := WithKeywords(states, Concat(s[..6]));
    if clear {
      ClearCommutesWithKeywords(x, s[6] + s[7]);
    }
    WithKeywordsAppend(x, s[6], s[7]);
    WithKeywordsNextSection(states, s, 6);
    WithKeywordsNextSection(states, s, 7);
    assert s[..8] == s;
  }

  /**
   * A redraw in which the user picked `chosen`: afterwards every target, not
   * only the one the popup reads, decodes to `chosen` and holds that mode's
   * queue, RenderType tag, blend factors and depth write, and for a blended
   * mode a changed shadows toggle is on every target too.
   */
  lemma RedrawAppliesModeUniformly(states: seq<MaterialState>, chosen: RenderingMode,
                                   shadowsChanged: bool, shadowsChosen: bool, f: PanelEdits,
                                   lightmap: LightmapEmissionEdit, j: nat)
    requires j < |states|
    ensures var t := ClearedIf(WithKeywords(WithLightmapEmission(
                                 RenderingModeEffect(states, true, chosen, shadowsChanged, shadowsChosen), lightmap),
                               Concat(PanelSections(f, true))), f.emission.changed)[j];
      var row := SettingsFor(chosen);
      DecodeRenderingMode(t.keywords) == chosen &&
      t.renderQueue == QueueValue(row.queue) &&
      t.tags[RenderTypeTag] == row.renderType &&
      t.ints[SrcBlendProperty] == BlendValue(row.srcBlend) &&
      t.ints[DstBlendProperty] == BlendValue(row.dstBlend) &&
      (t.ints[ZWriteProperty] == 1 <==> row.zWrite) &&
      (IsSemitransparent(chosen) && shadowsChanged ==> (SemitransparentShadowsKeyword in t.keywords <==> shadowsChosen))
  {
    var changedStates := ModeChange(states, chosen);
    var effect := RenderingModeEffect(states, true, chosen, shadowsChanged, shadowsChosen);
    ModeChangeUniform(states, chosen, j);
    if IsSemitransparent(chosen) && shadowsChanged {
      ShadowsWriteKeepsMode(changedStates[j].keywords, shadowsChosen);
      ApplyWritesSingle(changedStates[j].keywords, KeywordWrite(SemitransparentShadowsKeyword, shadowsChosen));
    }
    RedrawKeepsRenderingState(effect, f, lightmap, f.emission.changed, j);
  }

  /**
   * DoEmission: the texture-and-colour slot and the lightmap-emission popup
   * share one change check; on a change, rewrites `_EMISSION_MAP` when the
   * texture was replaced, then clears EmissiveIsBlack on every target. The
   * popup's own change check nests inside the section's, so a popup change is
   * always a change of the section.
   */
  method DoEmission(editor: MaterialEditor, e: TextureEdit, lightmap: LightmapEmissionEdit)
    requires lightmap.changed ==> e.changed
    modifies editor.targets[..]
    ensures editor.States() == EmissionEffect(old(editor.States()), e, lightmap)
  {
    editor.LightmapEmissionProperty(lightmap);
    WriteEmissionChange(editor, e);
  }

  /** DoMain after the alpha cutoff slider: metallic, smoothness, normals, occlusion, emission, detail mask. */
  method DoMainSections(editor: MaterialEditor, f: PanelEdits, lightmap: LightmapEmissionEdit)
    requires editor.Valid()
    requires lightmap.changed ==> f.emission.changed
    modifies editor.targets[..]
    ensures editor.States() ==
      ClearedIf(WithKeywords(WithLightmapEmission(old(editor.States()), lightmap),
                             Concat(PanelSections(f, true)[..6])),
                f.emission.changed)
  {
    ghost var before := editor.States();
    var sliderOffered := DoMetallic(editor, f.metallic);
    var source := DoSmoothness(editor, f.smoothnessChanged, f.smoothness);
    var scaleOffered := DoNormals(editor, f.normal);
    var strengthOffered := DoOcclusion(editor, f.occlusion);
    DoEmission(editor, f.emission, lightmap);
    DoDetailMask(editor, f.detailMask);
    MainInOrder(before, PanelSections(f, true), f.emission, lightmap);
  }

  // ---------------------------------------------------------------------------
  // The panel

  class GPUInstancingShaderGUI {
    var shouldShowAlphaCutoff: bool

    constructor ()
      ensures !shouldShowAlphaCutoff
    {
      shouldShowAlphaCutoff := false;
    }

    /**
     * The opening of DoRenderingMode: the mode the target's keywords encode,
     * checked Cutout, Fade, Transparent in that order, and the alpha cutoff
     * flag set exactly for Cutout.
     */
    method ReadRenderingMode(editor: MaterialEditor) returns (mode: RenderingMode)
      modifies this
      ensures mode == DecodeRenderingMode(editor.target.keywords)
      ensures shouldShowAlphaCutoff == (mode == Cutout)
    {
      mode := Opaque;
      shouldShowAlphaCutoff := false;
      if editor.target.IsKeywordEnabled(RenderingCutoutKeyword) {
        mode := Cutout;
        shouldShowAlphaCutoff := true;
      } else if editor.target.IsKeywordEnabled(RenderingFadeKeyword) {
        mode := Fade;
      } else if editor.target.IsKeywordEnabled(RenderingTransparentKeyword) {
        mode := RenderingMode.Transparent;
      }
    }

    /**
     * DoRenderingMode: decodes the mode from the panel's target, lets the user
     * pick one (`changed`, `chosen`), on a change writes the mode keywords and
     * the mode's settings row onto every target, and for the blended modes
     * draws the semitransparent-shadows toggle (`shadowsChanged`,
     * `shadowsChosen`). Returns the popup's value.
     */
    method DoRenderingMode(editor: MaterialEditor, changed: bool, chosen: RenderingMode,
                           shadowsChanged: bool, shadowsChosen: bool)
      returns (mode: RenderingMode)
      requires editor.Valid()
      modifies this, editor.targets[..]
      ensures var decoded := DecodeRenderingMode(old(editor.target.keywords));
        mode == if changed then chosen else decoded
      ensures editor.States() == RenderingModeEffect(old(editor.States()), changed, chosen, shadowsChanged, shadowsChosen)
      ensures var shadows := if shadowsChanged then shadowsChosen
                             else SemitransparentShadowsKeyword in old(editor.target.keywords);
        shouldShowAlphaCutoff == AlphaCutoffFlag(DecodeRenderingMode(old(editor.target.keywords)), mode, shadows)
    {
      mode := ReadRenderingMode(editor);
      ghost var before := editor.States();
      ghost var decoded := mode;
      if changed {
        mode := chosen;
        ApplyRenderingMode(editor, mode);
      }

      ghost var afterMode := editor.States();
      assert SemitransparentShadowsKeyword in editor.target.keywords
         <==> SemitransparentShadowsKeyword in before[0].keywords by {
        assert editor.target.keywords == afterMode[0].keywords;
        if changed {
          ModeChangeKeepsOtherKeywords(before, chosen, 0, SemitransparentShadowsKeyword);
        }
      }
      if mode == Fade || mode == RenderingMode.Transparent {
        var shadows := DoSemitransparentShadows(editor, shadowsChanged, shadowsChosen);
        if !shadowsChanged {
          WithKeywordsNone(afterMode);
        }
      }
    }

    /**
     * DoMain: the alpha cutoff slider is drawn exactly when the flag is set,
     * then metallic, smoothness, normals, occlusion, emission and detail mask.
     */
    method DoMain(editor: MaterialEditor, f: PanelEdits, lightmap: LightmapEmissionEdit)
      returns (alphaCutoffShown: bool)
      requires editor.Valid()
      requires lightmap.changed ==> f.emission.changed
      modifies editor.targets[..]
      ensures alphaCutoffShown == shouldShowAlphaCutoff
      ensures editor.States() ==
        ClearedIf(WithKeywords(WithLightmapEmission(old(editor.States()), lightmap),
                               Concat(PanelSections(f, true)[..6])),
                  f.emission.changed)
    {
      alphaCutoffShown := false;
      if shouldShowAlphaCutoff {
        alphaCutoffShown := true;
      }
      DoMainSections(editor, f, lightmap);
    }

    /**
     * OnGUI: DoRenderingMode, DoMain, DoSecondary. DoAdvanced is omitted
     * because its checkbox writes `enableInstancing`, which the model does
     * not hold.
     * Returns whether the alpha cutoff slider was drawn.
     */
    method OnGUI(editor: MaterialEditor, changed: bool, chosen: RenderingMode,
                 shadowsChanged: bool, shadowsChosen: bool, f: PanelEdits, lightmap: LightmapEmissionEdit)
      returns (alphaCutoffShown: bool)
      requires editor.Valid()
      requires lightmap.changed ==> f.emission.changed
      modifies this, editor.targets[..]
      ensures var decoded := DecodeRenderingMode(old(editor.target.keywords));
        var mode := if changed then chosen else decoded;
        var shadows := if shadowsChanged then shadowsChosen
                       else SemitransparentShadowsKeyword in old(editor.target.keywords);
        alphaCutoffShown == AlphaCutoffFlag(decoded, mode, shadows)
      ensures editor.States() ==
        ClearedIf(WithKeywords(WithLightmapEmission(
                                 RenderingModeEffect(old(editor.States()), changed, chosen, shadowsChanged, shadowsChosen),
                                 lightmap),
                               Concat(PanelSections(f, true))),
                  f.emission.changed)
    {
      var mode := DoRenderingMode(editor, changed, chosen, shadowsChanged, shadowsChosen);
      ghost var mid := editor.States();
      alphaCutoffShown := DoMain(editor, f, lightmap);
      var detailScaleOffered := DoSecondary(editor, f.detail, f.detailNormal);
      SecondaryAfterMain(WithLightmapEmission(mid, lightmap), PanelSections(f, true), f.emission.changed);
    }

    /**
     * DoSemitransparentShadows: the toggle starts from the target's
     * `_SEMITRANSPARENT_SHADOWS`; a change writes it to every target; when
     * the toggle ends off, the alpha cutoff slider is to be shown.
     */
    method DoSemitransparentShadows(editor: MaterialEditor, changed: bool, chosen: bool)
      returns (shadows: bool)
      requires editor.Valid()
      modifies this, editor.targets[..]
      ensures shadows == if changed then chosen else SemitransparentShadowsKeyword in old(editor.target.keywords)
      ensures editor.States() == WithKeywords(old(editor.States()),
        if changed then [KeywordWrite(SemitransparentShadowsKeyword, chosen)] else [])
      ensures shouldShowAlphaCutoff == (old(shouldShowAlphaCutoff) || !shadows)
    {
      shadows := editor.target.IsKeywordEnabled(SemitransparentShadowsKeyword);
      ghost var before := editor.States();
      if changed {
        shadows := chosen;
        SetKeyword(editor, SemitransparentShadowsKeyword, shadows);
      } else {
        WithKeywordsNone(before);
      }
      if !shadows {
        shouldShowAlphaCutoff := true;
      }
    }
  }
}
