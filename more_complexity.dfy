/**
 * The MoreComplexity shader panel: the shared sections, an emission slot that
 * writes `_EMISSION_MAP` on every change, and the order in which OnGUI draws
 * them. Every section writes only keywords, and no two sections write the
 * same keyword, so the outcome of a whole redraw is each section's own rule.
 */
module MoreComplexity {
  import opened Unity
  import opened KeywordStore
  import opened Sections
  import opened Panel

  /**
   * DoEmission: on every reported change of the emission slot, `_EMISSION_MAP`
   * becomes "a texture is assigned" on every target; GI flags are not touched.
   */
  method DoEmission(editor: MaterialEditor, e: TextureEdit)
    modifies editor.targets[..]
    ensures editor.States() == WithKeywords(old(editor.States()), PresenceWrites(EmissionMapKeyword, e))
  {
    SetPresenceKeyword(editor, EmissionMapKeyword, e);
  }

  /** DoMain: metallic, smoothness, normals, occlusion, emission and detail mask, in that order. */
  method DoMain(editor: MaterialEditor, f: PanelEdits)
    requires editor.Valid()
    modifies editor.targets[..]
    ensures editor.States() == WithKeywords(old(editor.States()), Concat(PanelSections(f, false)[..6]))
  {
    ghost var before := editor.States();
    var sliderOffered := DoMetallic(editor, f.metallic);
    var source := DoSmoothness(editor, f.smoothnessChanged, f.smoothness);
    var scaleOffered := DoNormals(editor, f.normal);
    var strengthOffered := DoOcclusion(editor, f.occlusion);
    DoEmission(editor, f.emission);
    DoDetailMask(editor, f.detailMask);
    MainSectionsInOrder(before, PanelSections(f, false));
  }

  /** OnGUI: DoMain, then DoSecondary. */
  method OnGUI(editor: MaterialEditor, f: PanelEdits)
    requires editor.Valid()
    modifies editor.targets[..]
    ensures editor.States() == WithKeywords(old(editor.States()), Concat(PanelSections(f, false)))
  {
    ghost var s := PanelSections(f, false);
    ghost var before := editor.States();
    DoMain(editor, f);
    ghost var mid := editor.States();
    var detailScaleOffered := DoSecondary(editor, f.detail, f.detailNormal);
    WithKeywordsAppend(mid, s[6], s[7]);
    WithKeywordsNextSection(before, s, 6);
    WithKeywordsNextSection(before, s, 7);
    assert s[..8] == s;
  }
}
