/**
 * The inspector sections that both shader panels draw the same way: the
 * smoothness source popup and the texture slots whose keyword follows "a
 * texture is assigned" (metallic, normal, occlusion, detail mask, detail
 * albedo, detail normal). Each widget is replaced by what the user did with
 * it: `changed` is the result of EndChangeCheck, and a texture slot reports
 * its texture before and after drawing.
 */
module Sections {
  import opened Unity
  import opened KeywordStore

  const SmoothnessAlbedoKeyword := "_SMOOTHNESS_ALBEDO"
  const SmoothnessMetallicKeyword := "_SMOOTHNESS_METALLIC"
  const MetallicMapKeyword := "_METALLIC_MAP"
  const NormalMapKeyword := "_NORMAL_MAP"
  const OcclusionMapKeyword := "_OCCLUSION_MAP"
  const DetailMaskKeyword := "_DETAIL_MASK"
  const DetailAlbedoMapKeyword := "_DETAIL_ALBEDO_MAP"
  const DetailNormalMapKeyword := "_DETAIL_NORMAL_MAP"
  const EmissionMapKeyword := "_EMISSION_MAP"

  // ---------------------------------------------------------------------------
  // Smoothness source

  datatype SmoothnessSource = Uniform | Albedo | Metallic

  /** The source the popup shows: `_SMOOTHNESS_ALBEDO` is checked before `_SMOOTHNESS_METALLIC`. */
  function DecodeSmoothness(keys: set<string>): SmoothnessSource
  {
    if SmoothnessAlbedoKeyword in keys then Albedo
    else if SmoothnessMetallicKeyword in keys then Metallic
    else Uniform
  }

  /** The two SetKeyword calls made when the user picks `s`. */
  function EncodeSmoothness(s: SmoothnessSource): seq<KeywordWrite>
  {
    [KeywordWrite(SmoothnessAlbedoKeyword, s == Albedo),
     KeywordWrite(SmoothnessMetallicKeyword, s == Metallic)]
  }

  /** The smoothness keywords in priority order, with the source each one stands for. */
  const SmoothnessFlags: seq<Flag<SmoothnessSource>> :=
    [Flag(SmoothnessAlbedoKeyword, Albedo), Flag(SmoothnessMetallicKeyword, Metallic)]

  lemma SmoothnessFlagsWellFormed()
    ensures DistinctKeywords(SmoothnessFlags) && DistinctValues(SmoothnessFlags)
  {
  }

  /** Decoding is the priority scan over the ordered keyword list, with Uniform as default. */
  lemma SmoothnessDecodeIsPriorityScan(keys: set<string>)
    ensures DecodeSmoothness(keys) == Scan(keys, SmoothnessFlags, Uniform)
  {
    var rest := SmoothnessFlags[1..];
    assert rest == [Flag(SmoothnessMetallicKeyword, Metallic)] && rest[1..] == [];
    assert Scan(keys, rest, Uniform) == if SmoothnessMetallicKeyword in keys then Metallic else Uniform;
  }

  /** Encoding writes every keyword of the group, each enabled exactly for its own source. */
  lemma SmoothnessEncodeWritesGroup(s: SmoothnessSource)
    ensures EncodeSmoothness(s) == Encode(SmoothnessFlags, s)
  {
  }

  /** decode(encode(s)) == s, whatever keywords the material had before. */
  lemma SmoothnessRoundTrip(keys: set<string>, s: SmoothnessSource)
    ensures DecodeSmoothness(ApplyWrites(keys, EncodeSmoothness(s))) == s
  {
    SmoothnessFlagsWellFormed();
    SmoothnessEncodeWritesGroup(s);
    SmoothnessDecodeIsPriorityScan(ApplyWrites(keys, EncodeSmoothness(s)));
    if s != Uniform {
      assert SmoothnessFlags[if s == Albedo then 0 else 1].value == s;
    }
    ScanEncodeRoundTrip(keys, SmoothnessFlags, Uniform, s);
  }

  /**
   * After encoding, at most one smoothness keyword is set (none for Uniform),
   * and every other keyword is as it was.
   */
  lemma SmoothnessKeywordsExclusive(keys: set<string>, s: SmoothnessSource)
    ensures var r := ApplyWrites(keys, EncodeSmoothness(s));
      !(SmoothnessAlbedoKeyword in r && SmoothnessMetallicKeyword in r) &&
      (SmoothnessAlbedoKeyword in r <==> s == Albedo) &&
      (SmoothnessMetallicKeyword in r <==> s == Metallic) &&
      forall k :: k != SmoothnessAlbedoKeyword && k != SmoothnessMetallicKeyword ==> (k in r <==> k in keys)
  {
    SmoothnessFlagsWellFormed();
    SmoothnessEncodeWritesGroup(s);
    EncodeSetsExactly(keys, SmoothnessFlags, s);
    var r := ApplyWrites(keys, EncodeSmoothness(s));
    assert SmoothnessAlbedoKeyword in r <==> s == Albedo by {
      assert SmoothnessFlags[0] == Flag(SmoothnessAlbedoKeyword, Albedo);
    }
    assert SmoothnessMetallicKeyword in r <==> s == Metallic by {
      assert SmoothnessFlags[1] == Flag(SmoothnessMetallicKeyword, Metallic);
    }
  }

  /**
   * encode(decode(keys)) rewrites nothing when at most one smoothness keyword
   * is set, and when both are set it keeps Albedo, the keyword the scan prefers.
   */
  lemma SmoothnessReencode(keys: set<string>)
    ensures var r := ApplyWrites(keys, EncodeSmoothness(DecodeSmoothness(keys)));
      (!(SmoothnessAlbedoKeyword in keys && SmoothnessMetallicKeyword in keys) ==> r == keys) &&
      (SmoothnessAlbedoKeyword in keys && SmoothnessMetallicKeyword in keys ==> r == keys - {SmoothnessMetallicKeyword})
  {
    var r := ApplyWrites(keys, EncodeSmoothness(DecodeSmoothness(keys)));
    SmoothnessKeywordsExclusive(keys, DecodeSmoothness(keys));
    if !(SmoothnessAlbedoKeyword in keys && SmoothnessMetallicKeyword in keys) {
      assert forall k :: k in r <==> k in keys;
    } else {
      assert forall k :: k in r <==> k in keys - {SmoothnessMetallicKeyword};
    }
  }

  /** The writes of DoSmoothness: both keywords when the popup changed, nothing otherwise. */
  function SmoothnessWrites(changed: bool, chosen: SmoothnessSource): seq<KeywordWrite>
  {
    if changed then EncodeSmoothness(chosen) else []
  }

  /**
   * DoSmoothness: reads the source from the panel's target, shows it in the
   * popup, and on a change writes the chosen source to every target. Returns
   * the popup's value, which the target decodes to afterwards.
   */
  method DoSmoothness(editor: MaterialEditor, changed: bool, chosen: SmoothnessSource)
    returns (source: SmoothnessSource)
    requires editor.Valid()
    modifies editor.targets[..]
    ensures source == if changed then chosen else DecodeSmoothness(old(editor.target.keywords))
    ensures editor.States() == WithKeywords(old(editor.States()), SmoothnessWrites(changed, chosen))
    ensures DecodeSmoothness(editor.target.keywords) == source
  {
    source := Uniform;
    if editor.target.IsKeywordEnabled(SmoothnessAlbedoKeyword) {
      source := Albedo;
    } else if editor.target.IsKeywordEnabled(SmoothnessMetallicKeyword) {
      source := Metallic;
    }
    ghost var before := editor.States();
    if changed {
      source := chosen;
      SetKeyword(editor, SmoothnessAlbedoKeyword, source == Albedo);
      SetKeyword(editor, SmoothnessMetallicKeyword, source == Metallic);
      WithKeywordsAppend(before, [KeywordWrite(SmoothnessAlbedoKeyword, source == Albedo)],
        [KeywordWrite(SmoothnessMetallicKeyword, source == Metallic)]);
      assert editor.States()[0] == editor.target.State();
      SmoothnessRoundTrip(before[0].keywords, chosen);
    } else {
      WithKeywordsNone(before);
    }
  }

  // ---------------------------------------------------------------------------
  // Texture slots

  /** What the user did with one texture slot: its texture before drawing, EndChangeCheck, its texture after. */
  datatype TextureEdit = TextureEdit(before: Texture, changed: bool, after: Texture)

  /** Slots that write their keyword on every change: `SetKeyword(keyword, map.textureValue)`. */
  function PresenceWrites(keyword: string, e: TextureEdit): seq<KeywordWrite>
  {
    if e.changed then [KeywordWrite(keyword, IsAssigned(e.after))] else []
  }

  /** Slots that write their keyword only when the texture itself was replaced. */
  function ReplacementWrites(keyword: string, e: TextureEdit): seq<KeywordWrite>
  {
    if e.changed && e.before != e.after then [KeywordWrite(keyword, IsAssigned(e.after))] else []
  }

  /** The uniform `_Metallic` slider is drawn beside the metallic slot only while no map is assigned. */
  predicate MetallicSliderOffered(tex: Texture)
  {
    !IsAssigned(tex)
  }

  /** `_BumpScale`, `_DetailBumpScale` and `_OcclusionStrength` are drawn only while their map is assigned. */
  predicate StrengthOffered(tex: Texture)
  {
    IsAssigned(tex)
  }

  /**
   * A presence slot's keyword equals "a texture is assigned" after a change,
   * is left alone without one, and no other keyword moves.
   */
  lemma PresenceWritesSync(keys: set<string>, keyword: string, e: TextureEdit)
    ensures var r := ApplyWrites(keys, PresenceWrites(keyword, e));
      (e.changed ==> (keyword in r <==> IsAssigned(e.after))) &&
      (!e.changed ==> r == keys) &&
      forall k :: k != keyword ==> (k in r <==> k in keys)
  {
    if e.changed {
      ApplyWritesSingle(keys, KeywordWrite(keyword, IsAssigned(e.after)));
    }
  }

  /**
   * Skipping the write when the texture was not replaced loses nothing: a
   * keyword that matched the old texture matches the new one, provided that
   * an unchanged widget keeps its texture.
   */
  lemma ReplacementWritesKeepSync(keys: set<string>, keyword: string, e: TextureEdit)
    requires keyword in keys <==> IsAssigned(e.before)
    requires e.changed || e.before == e.after
    ensures var r := ApplyWrites(keys, ReplacementWrites(keyword, e));
      (keyword in r <==> IsAssigned(e.after)) &&
      (e.before == e.after ==> r == keys) &&
      forall k :: k != keyword ==> (k in r <==> k in keys)
  {
    if e.changed && e.before != e.after {
      ApplyWritesSingle(keys, KeywordWrite(keyword, IsAssigned(e.after)));
    }
  }

  /**
   * After a change to the metallic slot, the shader samples the map exactly
   * when the panel no longer offers the uniform slider.
   */
  lemma MetallicSliderExcludesMap(keys: set<string>, e: TextureEdit)
    requires e.changed
    ensures MetallicMapKeyword in ApplyWrites(keys, PresenceWrites(MetallicMapKeyword, e)) <==> !MetallicSliderOffered(e.after)
  {
    PresenceWritesSync(keys, MetallicMapKeyword, e);
  }

  /** After a change to a strength slot, its keyword is set exactly when its strength control is offered. */
  lemma StrengthFollowsMap(keys: set<string>, keyword: string, e: TextureEdit)
    requires e.changed
    ensures keyword in ApplyWrites(keys, PresenceWrites(keyword, e)) <==> StrengthOffered(e.after)
  {
    PresenceWritesSync(keys, keyword, e);
  }

  /** DoMetallic: the `_METALLIC_MAP` slot; returns whether the `_Metallic` slider is drawn. */
  method DoMetallic(editor: MaterialEditor, e: TextureEdit) returns (sliderOffered: bool)
    modifies editor.targets[..]
    ensures sliderOffered == MetallicSliderOffered(e.before)
    ensures editor.States() == WithKeywords(old(editor.States()), PresenceWrites(MetallicMapKeyword, e))
  {
    sliderOffered := MetallicSliderOffered(e.before);
    SetPresenceKeyword(editor, MetallicMapKeyword, e);
  }

  /** DoNormals: the `_NORMAL_MAP` slot; returns whether `_BumpScale` is drawn. */
  method DoNormals(editor: MaterialEditor, e: TextureEdit) returns (scaleOffered: bool)
    modifies editor.targets[..]
    ensures scaleOffered == StrengthOffered(e.before)
    ensures editor.States() == WithKeywords(old(editor.States()), ReplacementWrites(NormalMapKeyword, e))
  {
    scaleOffered := StrengthOffered(e.before);
    ghost var before := editor.States();
    if e.changed && e.before != e.after {
      SetKeyword(editor, NormalMapKeyword, IsAssigned(e.after));
    } else {
      WithKeywordsNone(before);
    }
  }

  /** DoOcclusion: the `_OCCLUSION_MAP` slot; returns whether `_OcclusionStrength` is drawn. */
  method DoOcclusion(editor: MaterialEditor, e: TextureEdit) returns (strengthOffered: bool)
    modifies editor.targets[..]
    ensures strengthOffered == StrengthOffered(e.before)
    ensures editor.States() == WithKeywords(old(editor.States()), PresenceWrites(OcclusionMapKeyword, e))
  {
    strengthOffered := StrengthOffered(e.before);
    SetPresenceKeyword(editor, OcclusionMapKeyword, e);
  }

  /** DoDetailMask: the `_DETAIL_MASK` slot. */
  method DoDetailMask(editor: MaterialEditor, e: TextureEdit)
    modifies editor.targets[..]
    ensures editor.States() == WithKeywords(old(editor.States()), PresenceWrites(DetailMaskKeyword, e))
  {
    SetPresenceKeyword(editor, DetailMaskKeyword, e);
  }

  /** DoSecondaryNormals: the `_DETAIL_NORMAL_MAP` slot; returns whether `_DetailBumpScale` is drawn. */
  method DoSecondaryNormals(editor: MaterialEditor, e: TextureEdit) returns (scaleOffered: bool)
    modifies editor.targets[..]
    ensures scaleOffered == StrengthOffered(e.before)
    ensures editor.States() == WithKeywords(old(editor.States()), PresenceWrites(DetailNormalMapKeyword, e))
  {
    scaleOffered := StrengthOffered(e.before);
    SetPresenceKeyword(editor, DetailNormalMapKeyword, e);
  }

  /**
   * DoSecondary: the `_DETAIL_ALBEDO_MAP` slot, then the detail normal slot;
   * returns whether `_DetailBumpScale` is drawn.
   */
  method DoSecondary(editor: MaterialEditor, detail: TextureEdit, detailNormal: TextureEdit)
    returns (detailScaleOffered: bool)
    modifies editor.targets[..]
    ensures detailScaleOffered == StrengthOffered(detailNormal.before)
    ensures editor.States() == WithKeywords(old(editor.States()),
      PresenceWrites(DetailAlbedoMapKeyword, detail) + PresenceWrites(DetailNormalMapKeyword, detailNormal))
  {
    ghost var before := editor.States();
    SetPresenceKeyword(editor, DetailAlbedoMapKeyword, detail);
    detailScaleOffered := DoSecondaryNormals(editor, detailNormal);
    WithKeywordsAppend(before, PresenceWrites(DetailAlbedoMapKeyword, detail), PresenceWrites(DetailNormalMapKeyword, detailNormal));
  }

  /** The `if (EndChangeCheck()) SetKeyword(keyword, map.textureValue)` step the presence slots share. */
  method SetPresenceKeyword(editor: MaterialEditor, keyword: string, e: TextureEdit)
    modifies editor.targets[..]
    ensures editor.States() == WithKeywords(old(editor.States()), PresenceWrites(keyword, e))
  {
    ghost var before := editor.States();
    if e.changed {
      SetKeyword(editor, keyword, IsAssigned(e.after));
    } else {
      WithKeywordsNone(before);
    }
  }
}
