# Shader inspector keyword logic

A model of the part of two Unity material inspectors (the GPU-instancing shader
panel and the MoreComplexity shader panel) that is more than widget drawing:
reading shader keywords into the state a panel shows, and writing what the user
picked back onto every material of the multi-selection.

- `unity.dfy` (module `Unity`): the host as the panels see it. A `Material` holds
  a keyword set, a render queue, override tags, int properties and GI flags. A
  `MaterialEditor` holds the selection `targets` and `target`, which the model
  takes to be `targets[0]`. `States()` views the whole selection as a sequence of
  values. The editor's lightmap-emission popup writes the emissive GI bits.
- `keyword_store.dfy` (module `KeywordStore`): `SetKeyword` over the selection;
  keyword writes as values; an enum stored as a group of exclusive keywords, read
  by a priority scan and written by writing the whole group; sections of writes
  that name disjoint keywords.
- `sections.dfy` (module `Sections`): the methods whose bodies are the same in both
  panels. These are the smoothness source popup and the texture slots metallic,
  normal, occlusion, detail mask, detail albedo and detail normal. Each is written
  once and cited at its GPU-instancing lines; the MoreComplexity lines are named in
  the row.
- `panel.dfy` (module `Panel`): one redraw of DoMain and DoSecondary as a sequence
  of sections. No two sections write the same keyword.
- `gpu_instancing.dfy` (module `GPUInstancing`): rendering mode, the four-row
  settings table, semitransparent shadows, the `shouldShowAlphaCutoff` field, and
  the emission slot. That slot draws the lightmap-emission popup inside its change
  check and clears `EmissiveIsBlack` on a change.
- `more_complexity.dfy` (module `MoreComplexity`): the emission slot of that panel,
  DoMain and OnGUI.

Each widget is replaced by what the user did with it. `changed` is the result of
`EndChangeCheck`, and `chosen` is the value the widget returned. A texture slot
reports its texture before drawing, whether it changed, and its texture after
(`TextureEdit`). Texture identity is kept because DoNormals and the GPU panel's
DoEmission compare texture references, not presence. Loops over `editor.targets`
are imperative `for` loops over the array of materials. Their proofs allow the
same material to be selected twice.

## Model

G = `Assets/19.GPUInstancing/Editor/GPUInstancingShaderGUI.cs`, M = `Assets/10.MoreComplexity/Editor/MoreComplexityShaderGUI.cs`.

| member | source | states |
|---|---|---|
| `KeywordStore.SetKeyword` | Assets/19.GPUInstancing/Editor/GPUInstancingShaderGUI.cs:80-96 | Every selected material ends with the keyword present exactly when `state` holds. Every other keyword, the render queue, tags, ints and GI flags of every material are unchanged. This holds even when a material appears twice in `targets`. Same code at M:31-47. |
| `KeywordStore.Toggled` | Assets/10.MoreComplexity/Editor/MoreComplexityShaderGUI.cs:33-46 | Enable/DisableKeyword on one material: the keyword is present iff the write enables it, and every other keyword keeps its presence. |
| `KeywordStore.ApplyWritesLastWins` | Assets/19.GPUInstancing/Editor/GPUInstancingShaderGUI.cs:128-130 | For successive SetKeyword calls, a keyword's final presence is the last write to it, or its original presence when none names it. |
| `KeywordStore.ApplyWritesUntouched` | Assets/10.MoreComplexity/Editor/MoreComplexityShaderGUI.cs:164-167 | A keyword that no SetKeyword call names keeps its presence. |
| `KeywordStore.ScanFirstMatch` | Assets/19.GPUInstancing/Editor/GPUInstancingShaderGUI.cs:108-120 | An if/else-if chain over keywords returns the value of the first present keyword in priority order. |
| `KeywordStore.ScanNoMatch` | Assets/19.GPUInstancing/Editor/GPUInstancingShaderGUI.cs:105-106 | With no keyword of the group present, the chain returns its default. |
| `KeywordStore.EncodeSetsExactly` | Assets/19.GPUInstancing/Editor/GPUInstancingShaderGUI.cs:128-130 | Writing a whole group for value `v` leaves each group keyword present iff it stands for `v`. Keywords outside the group are unchanged. |
| `KeywordStore.ScanExact` | Assets/19.GPUInstancing/Editor/GPUInstancingShaderGUI.cs:105-120 | When exactly the keywords standing for `v` are present, the priority scan returns `v`; with none present it returns the default. |
| `KeywordStore.ScanEncodeRoundTrip` | Assets/19.GPUInstancing/Editor/GPUInstancingShaderGUI.cs:122-130 | For every member of the enum, decoding after writing the group gives the member back, whatever keywords were set before. |
| `KeywordStore.EncodeAtMostOne` | Assets/10.MoreComplexity/Editor/MoreComplexityShaderGUI.cs:161-168 | After a group is written, no two of its keywords are present. |
| `KeywordStore.WithKeywordsAppend` | Assets/10.MoreComplexity/Editor/MoreComplexityShaderGUI.cs:164-167 | Two SetKeyword sequences on the selection, one after the other, equal their concatenation. |
| `KeywordStore.ConcatOwnSection` | Assets/10.MoreComplexity/Editor/MoreComplexityShaderGUI.cs:54-69 | When only one section of a redraw names a keyword, that keyword ends as that section alone leaves it. |
| `KeywordStore.ConcatOutside` | Assets/10.MoreComplexity/Editor/MoreComplexityShaderGUI.cs:11-18 | A keyword that no section names is not touched by the whole redraw. |
| `Sections.SmoothnessDecodeIsPriorityScan` | Assets/19.GPUInstancing/Editor/GPUInstancingShaderGUI.cs:248-256 | The smoothness decode is the priority scan `_SMOOTHNESS_ALBEDO`, then `_SMOOTHNESS_METALLIC`, with default Uniform. Same code at M:143-151. |
| `Sections.SmoothnessEncodeWritesGroup` | Assets/19.GPUInstancing/Editor/GPUInstancingShaderGUI.cs:269-272 | On a change, both smoothness keywords are written, each enabled exactly for its own source. |
| `Sections.SmoothnessRoundTrip` | Assets/10.MoreComplexity/Editor/MoreComplexityShaderGUI.cs:161-168 | decode(encode(s)) == s for every source, from any prior keywords. |
| `Sections.SmoothnessKeywordsExclusive` | Assets/10.MoreComplexity/Editor/MoreComplexityShaderGUI.cs:164-167 | After encoding, at most one smoothness keyword is present. Albedo's is present iff the source is Albedo, and Metallic's iff it is Metallic. Other keywords are unchanged. |
| `Sections.SmoothnessReencode` | Assets/19.GPUInstancing/Editor/GPUInstancingShaderGUI.cs:246-276 | Writing back the decoded source changes nothing when at most one smoothness keyword is set. When both are set, it drops `_SMOOTHNESS_METALLIC`, the keyword the scan ignores. |
| `Sections.DoSmoothness` | Assets/19.GPUInstancing/Editor/GPUInstancingShaderGUI.cs:246-276 | Returns the chosen source on a change, otherwise the source decoded from `target`. On a change, both keywords are written to every target and nothing else. Afterwards `target` decodes to the returned source. Same code at M:141-171. |
| `Sections.PresenceWritesSync` | Assets/10.MoreComplexity/Editor/MoreComplexityShaderGUI.cs:197-200 | A presence slot's keyword is present iff a texture is assigned after a change. Without a change the keywords are untouched. No other keyword moves. |
| `Sections.ReplacementWritesKeepSync` | Assets/19.GPUInstancing/Editor/GPUInstancingShaderGUI.cs:214-217 | `_NORMAL_MAP` is rewritten only when the texture was replaced. A keyword that matched the old texture still matches the new one, and an unreplaced texture leaves every keyword alone. |
| `Sections.MetallicSliderExcludesMap` | Assets/10.MoreComplexity/Editor/MoreComplexityShaderGUI.cs:133-138 | After a metallic-slot change, `_METALLIC_MAP` is set exactly when the `_Metallic` slider is no longer offered. |
| `Sections.StrengthFollowsMap` | Assets/10.MoreComplexity/Editor/MoreComplexityShaderGUI.cs:195-200 | After a slot change, the slot's keyword is set exactly when its strength or scale control is offered. |
| `Sections.SetPresenceKeyword` | Assets/19.GPUInstancing/Editor/GPUInstancingShaderGUI.cs:240-243 | On a change, the keyword becomes "texture assigned" on every target; without one, nothing changes. The same step is at G:181-184, 228-231, 312-315, 324-327 and M:78-81, 94-97, 135-138, 185-188, 197-200, 209-212. |
| `Sections.DoMetallic` | Assets/19.GPUInstancing/Editor/GPUInstancingShaderGUI.cs:233-244 | Offers the `_Metallic` slider iff no map was assigned before drawing. A change sets `_METALLIC_MAP` to "texture assigned" on every target. Same code at M:128-139. |
| `Sections.DoNormals` | Assets/10.MoreComplexity/Editor/MoreComplexityShaderGUI.cs:114-127 | Offers `_BumpScale` iff a map was assigned before drawing. `_NORMAL_MAP` is written on every target only when a change was reported and the texture differs. Same code at G:204-218. |
| `Sections.DoOcclusion` | Assets/19.GPUInstancing/Editor/GPUInstancingShaderGUI.cs:306-316 | Offers `_OcclusionStrength` iff a map was assigned. A change sets `_OCCLUSION_MAP` to "texture assigned" on every target. Same code at M:191-201. |
| `Sections.DoDetailMask` | Assets/10.MoreComplexity/Editor/MoreComplexityShaderGUI.cs:203-213 | A change sets `_DETAIL_MASK` to "texture assigned" on every target. Same code at G:318-328. |
| `Sections.DoSecondaryNormals` | Assets/19.GPUInstancing/Editor/GPUInstancingShaderGUI.cs:220-232 | Offers `_DetailBumpScale` iff a map was assigned. A change sets `_DETAIL_NORMAL_MAP` to "texture assigned" on every target. Same code at M:86-98. |
| `Sections.DoSecondary` | Assets/10.MoreComplexity/Editor/MoreComplexityShaderGUI.cs:71-84 | Writes `_DETAIL_ALBEDO_MAP`, then the detail normal slot, on every target. Same code at G:174-187. |
| `Panel.PanelKeywordRules` | Assets/10.MoreComplexity/Editor/MoreComplexityShaderGUI.cs:54-84 | After a whole redraw, each slot keyword follows its own slot's rule and the smoothness source is the popup's choice if it changed. Everything else is as before. Keywords outside the panel are never touched. |
| `Panel.PanelSlotRule` | Assets/19.GPUInstancing/Editor/GPUInstancingShaderGUI.cs:165-170 | One texture slot decides its keyword for the whole redraw. No other section can disturb it. |
| `Panel.PanelSmoothnessRule` | Assets/10.MoreComplexity/Editor/MoreComplexityShaderGUI.cs:62-63 | After a redraw, the smoothness source is the popup's choice when it changed and the old decoded source otherwise. |
| `Panel.PanelLeavesOtherKeywords` | Assets/19.GPUInstancing/Editor/GPUInstancingShaderGUI.cs:64-65 | DoMain and DoSecondary never write a keyword outside their sections, for example the rendering-mode keywords. |
| `Panel.SectionNamesOwnKeywords` | Assets/10.MoreComplexity/Editor/MoreComplexityShaderGUI.cs:62-67 | Each section writes only its own keywords. |
| `GPUInstancing.ModesTableIndexedByMode` | Assets/19.GPUInstancing/Editor/GPUInstancingShaderGUI.cs:24-53 | The table has four rows, one per mode in enum order. Indexing by `(int)mode` is in bounds, and distinct modes get distinct rows. |
| `GPUInstancing.SettingsRecipes` | Assets/19.GPUInstancing/Editor/GPUInstancingShaderGUI.cs:25-52 | Depth is written exactly for Opaque and Cutout, which are also exactly the rows with destination factor Zero. Only Fade uses source factor SrcAlpha. Only Opaque has an empty RenderType. Fade and Transparent differ only in the source factor. |
| `GPUInstancing.QueueFollowsModeOrder` | Assets/19.GPUInstancing/Editor/GPUInstancingShaderGUI.cs:26-47 | A consequence of Unity's RenderQueue numbers, not a promise of the panel. Render queues do not decrease along the enum order. Two modes share a queue only when they are the same mode or are Fade and Transparent. |
| `GPUInstancing.RenderingDecodeIsPriorityScan` | Assets/19.GPUInstancing/Editor/GPUInstancingShaderGUI.cs:105-120 | The mode decode is the priority scan Cutout, then Fade, then Transparent, with default Opaque. |
| `GPUInstancing.RenderingEncodeWritesGroup` | Assets/19.GPUInstancing/Editor/GPUInstancingShaderGUI.cs:128-130 | A mode change writes all three mode keywords, each enabled exactly for its own mode. |
| `GPUInstancing.RenderingModeRoundTrip` | Assets/19.GPUInstancing/Editor/GPUInstancingShaderGUI.cs:128-130 | Decoding after the three writes gives back the chosen mode, whatever keywords were set before. |
| `GPUInstancing.RenderingKeywordsExclusive` | Assets/19.GPUInstancing/Editor/GPUInstancingShaderGUI.cs:128-130 | After a mode change, each mode keyword is present iff it is the chosen mode's. Other keywords are unchanged. |
| `GPUInstancing.RenderingKeywordsAtMostOne` | Assets/19.GPUInstancing/Editor/GPUInstancingShaderGUI.cs:128-130 | After a mode change, two present mode keywords are the same keyword, and none is present for Opaque. |
| `GPUInstancing.WrittenSettingsReadBack` | Assets/19.GPUInstancing/Editor/GPUInstancingShaderGUI.cs:138-142 | A material reads back the row's queue, RenderType, `_SrcBlend` and `_DstBlend`. `_ZWrite` is 1 iff the row writes depth and 0 otherwise. Keywords, GI flags, other tags and other ints are unchanged. |
| `GPUInstancing.WrittenSettingsIdempotent` | Assets/19.GPUInstancing/Editor/GPUInstancingShaderGUI.cs:136-143 | Writing a row twice equals writing it once, so a material selected twice ends the same. |
| `GPUInstancing.WrittenSettingsIdentifyMode` | Assets/19.GPUInstancing/Editor/GPUInstancingShaderGUI.cs:135-142 | A consequence of Unity's RenderQueue and BlendMode numbers, not a promise of the panel. The written queue and `_SrcBlend` together identify the mode. |
| `GPUInstancing.ModeChangeUniform` | Assets/19.GPUInstancing/Editor/GPUInstancingShaderGUI.cs:125-143 | After a mode change, every target decodes to the chosen mode and carries the same row values, whatever it held before. GI flags are unchanged. |
| `GPUInstancing.ModeChangeKeepsOtherKeywords` | Assets/19.GPUInstancing/Editor/GPUInstancingShaderGUI.cs:128-130 | A mode change leaves every keyword outside the mode group alone, including `_SEMITRANSPARENT_SHADOWS`. |
| `GPUInstancing.WriteModeKeywords` | Assets/19.GPUInstancing/Editor/GPUInstancingShaderGUI.cs:128-130 | The three SetKeyword calls of a mode change, with their combined effect on the selection. |
| `GPUInstancing.WriteSettingsOn` | Assets/19.GPUInstancing/Editor/GPUInstancingShaderGUI.cs:138-142 | One material ends as `WrittenSettings` of its old state: the row's queue, RenderType tag and three ints, and nothing else changed. |
| `GPUInstancing.WriteSettings` | Assets/19.GPUInstancing/Editor/GPUInstancingShaderGUI.cs:135-143 | The loop writes the row onto every target; nothing but queue, the RenderType tag and the three ints changes. |
| `GPUInstancing.ApplyRenderingMode` | Assets/19.GPUInstancing/Editor/GPUInstancingShaderGUI.cs:128-143 | A mode change is the keyword writes followed by the settings row. |
| `GPUInstancing.ShadowsWriteKeepsMode` | Assets/19.GPUInstancing/Editor/GPUInstancingShaderGUI.cs:345-348 | The semitransparent-shadows write does not change the decoded mode. |
| `GPUInstancing.AlphaCutoffSettles` | Assets/19.GPUInstancing/Editor/GPUInstancingShaderGUI.cs:105-149 | After DoRenderingMode's effect for a picked mode, the target decodes to that mode. Its shadows keyword is the toggle's new value when the toggle was drawn and changed, and its old value otherwise. On the next redraw the cutoff flag is true iff the mode is Cutout, or is blended with shadows off. |
| `GPUInstancing.EmissionClearsOnlyEmissiveIsBlack` | Assets/19.GPUInstancing/Editor/GPUInstancingShaderGUI.cs:285-302 | For every target, with no precondition: EmissiveIsBlack ends set iff the section reported no change and it was set before. The other GI bits are the popup's choice when the popup changed and the target's own otherwise. Queue, tags and ints are unchanged. With no change anywhere nothing moves. |
| `GPUInstancing.EmissionMapFollowsTexture` | Assets/19.GPUInstancing/Editor/GPUInstancingShaderGUI.cs:284-298 | On a target whose `_EMISSION_MAP` matched the texture before, it matches the texture on show afterwards. |
| `GPUInstancing.RedrawKeepsRenderingState` | Assets/19.GPUInstancing/Editor/GPUInstancingShaderGUI.cs:63-65 | DoMain and DoSecondary leave the decoded mode, the shadows keyword, the queue, tags and ints of every target alone. |
| `GPUInstancing.RedrawAppliesModeUniformly` | Assets/19.GPUInstancing/Editor/GPUInstancingShaderGUI.cs:58-67 | After a redraw in which the user picked a mode, every target decodes to it and holds that mode's row values. For a blended mode, a changed toggle is on every target. |
| `GPUInstancing.GPUInstancingShaderGUI.constructor` | Assets/19.GPUInstancing/Editor/GPUInstancingShaderGUI.cs:56 | `shouldShowAlphaCutoff` starts false. |
| `GPUInstancing.GPUInstancingShaderGUI.DoRenderingMode` | Assets/19.GPUInstancing/Editor/GPUInstancingShaderGUI.cs:103-150 | Returns the chosen mode on a change, otherwise the mode decoded from `target`. On a change, writes the keywords and the row to every target. A blended mode with a changed toggle also gets the shadows write. `shouldShowAlphaCutoff` ends as "decoded mode is Cutout, or mode is blended and the toggle is off". |
| `GPUInstancing.GPUInstancingShaderGUI.DoSemitransparentShadows` | Assets/19.GPUInstancing/Editor/GPUInstancingShaderGUI.cs:338-354 | The toggle starts from `target`'s keyword. A change writes it to every target. When the toggle ends off, the cutoff flag is set, and it is never cleared here. |
| `GPUInstancing.DoEmission` | Assets/19.GPUInstancing/Editor/GPUInstancingShaderGUI.cs:281-304 | The popup's write comes first. Then, on a change, `_EMISSION_MAP` is rewritten only if the texture was replaced, and EmissiveIsBlack is cleared on every target. Without a change only the popup's write remains. |
| `GPUInstancing.WriteEmissionChange` | Assets/19.GPUInstancing/Editor/GPUInstancingShaderGUI.cs:292-303 | The block run on a change: the `_EMISSION_MAP` write for a replaced texture, then the EmissiveIsBlack clear on every target. |
| `GPUInstancing.DoMainSections` | Assets/19.GPUInstancing/Editor/GPUInstancingShaderGUI.cs:165-170 | Metallic, smoothness, normals, occlusion, emission and detail mask are written in order. The popup's write goes first and the GI clear last, applied when emission changed. |
| `GPUInstancing.GPUInstancingShaderGUI.ReadRenderingMode` | Assets/19.GPUInstancing/Editor/GPUInstancingShaderGUI.cs:105-120 | The mode is the one the target's keywords decode to, and the alpha cutoff flag is set exactly for Cutout. |
| `GPUInstancing.GPUInstancingShaderGUI.DoMain` | Assets/19.GPUInstancing/Editor/GPUInstancingShaderGUI.cs:152-172 | The alpha cutoff slider is drawn iff the flag is set. The six sections are then written as `GPUInstancing.DoMainSections` states. |
| `GPUInstancing.GPUInstancingShaderGUI.OnGUI` | Assets/19.GPUInstancing/Editor/GPUInstancingShaderGUI.cs:58-67 | The cutoff slider is drawn iff the flag computed by DoRenderingMode in the same redraw holds. The selection ends as the rendering-mode effect, then the popup's write, then all panel sections, with the GI clear when emission changed. |
| `Unity.MaterialEditor.LightmapEmissionProperty` | Assets/19.GPUInstancing/Editor/GPUInstancingShaderGUI.cs:290 | A change of the popup writes the chosen entry's emissive bits onto every target. |
| `Unity.LightmapEmissionWritesEmissiveBits` | Assets/19.GPUInstancing/Editor/GPUInstancingShaderGUI.cs:290 | The popup changes only RealtimeEmissive and BakedEmissive. They become the chosen entry's after a change. EmissiveIsBlack, keywords, queue, tags and ints stay. |
| `MoreComplexity.DoEmission` | Assets/10.MoreComplexity/Editor/MoreComplexityShaderGUI.cs:176-189 | Every reported change writes `_EMISSION_MAP` = "texture assigned" on every target, even if the texture is the same. GI flags are untouched. |
| `MoreComplexity.DoMain` | Assets/10.MoreComplexity/Editor/MoreComplexityShaderGUI.cs:54-69 | Metallic, smoothness, normals, occlusion, emission and detail mask write their keywords in that order, and nothing else changes. |
| `MoreComplexity.OnGUI` | Assets/10.MoreComplexity/Editor/MoreComplexityShaderGUI.cs:11-18 | DoMain, then DoSecondary: the selection ends as all eight sections' writes applied in order; `Panel.PanelKeywordRules` gives each keyword's outcome. |

## Left out

- Widget drawing is not modelled. EnumPopup, Toggle and the texture slots (TexturePropertySingleLine, TexturePropertyWithHDRColor) become `changed` plus the chosen value. ShaderProperty, TextureScaleOffsetProperty and GUILayout.Label are not modelled at all; they sit outside every change check.
- DoAdvanced (G:356-361) draws the GPU-instancing checkbox (`EnableInstancingField`). Its write of each target's `enableInstancing` is not modelled, so the GPU OnGUI omits DoAdvanced.
- DoAlphaCutoff (G:330-336) draws a slider and adjusts the indent. It appears only as the `alphaCutoffShown` result of DoMain.
- `MakeLabel` and the shared `staticLabel` (G:189-202, M:99-112) are label text only.
- `EditorGUI.indentLevel` bookkeeping is host layout state.
- `RecordAction` / `RegisterPropertyChangeUndo` is the host's undo system. The model does not log it.
- `FindProperty` and the `properties` array are not modelled. A slot's texture is a method input, and a missing property is not modelled.
- The panel fields `target`, `editor` and `properties` set by OnGUI are not modelled. The editor is passed as a parameter and `target` is `editor.target`, which the model takes to be `targets[0]`. The panels' `IsKeywordEnabled` helper is `Material.IsKeywordEnabled` on that target.
- The locals `queue` and `renderType` (G:132-133) are computed and never used, so they have no effect and are not modelled.
- The numbers for RenderQueue (Geometry 2000, AlphaTest 2450, Transparent 3000) and BlendMode (Zero 0 to OneMinusSrcAlpha 10) come from Unity's public enums. The repository does not define them.
- `SetOverrideTag` with an empty value clears the tag in Unity. The model stores the empty string as the tag's value.
- Of `globalIlluminationFlags`, only RealtimeEmissive, BakedEmissive and EmissiveIsBlack are modelled, as a set.
- `Unity.MaterialEditor.LightmapEmissionProperty`: Unity's implementation is not part of this repository. The model takes its write to be "on a change, replace the RealtimeEmissive/BakedEmissive bits of every target by the chosen entry's (None, Realtime or Baked) and keep EmissiveIsBlack". The popup's mixed-value display, its indent argument and its own drawing are not modelled. Because the popup's change check nests inside the emission section's, a popup change is also a change of the section; the GPU DoEmission, DoMainSections, DoMain and OnGUI require `lightmap.changed ==> e.changed` for this.
- `GPUInstancing.EmissionClearsOnlyEmissiveIsBlack`: its clauses "EmissiveIsBlack stays when the section reports no change" and "with no change anywhere nothing moves" rest on the assumed popup write. Unity's popup may also recompute EmissiveIsBlack from the emission colour on every redraw; that host behaviour is not modelled. The panel's own promise, that a change clears EmissiveIsBlack and moves no keyword other than `_EMISSION_MAP`, no queue, tag or int, does not depend on it.
- Material properties other than keywords, the queue, tags, the ints `_SrcBlend`/`_DstBlend`/`_ZWrite` and GI flags are not modelled. This covers textures, colours, floats and scale/offset, which the texture, colour and float widgets write, and `enableInstancing`, which the GPU-instancing checkbox writes.
- The unused `Codice.Client.BaseCommands` import and the commented-out `ColorPickerHDRConfig` are not modelled.
