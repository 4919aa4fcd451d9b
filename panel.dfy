/**
 * One redraw of a whole panel, as far as keywords go: the sections DoMain and
 * DoSecondary draw, in order, each writing only its own keywords. The two
 * panels differ only in the emission slot, which the GPU-instancing panel
 * rewrites only when the texture was replaced.
 */
module Panel {
  import opened Unity
  import opened KeywordStore
  import opened Sections

  /** What the user did with every widget of the panel during one redraw. */
  datatype PanelEdits = PanelEdits(
    metallic: TextureEdit,
    smoothnessChanged: bool,
    smoothness: SmoothnessSource,
    normal: TextureEdit,
    occlusion: TextureEdit,
    emission: TextureEdit,
    detailMask: TextureEdit,
    detail: TextureEdit,
    detailNormal: TextureEdit)

  /** The emission slot's keyword writes: on every change, or only on a replaced texture. */
  function EmissionWrites(e: TextureEdit, onReplace: bool): seq<KeywordWrite>
  {
    if onReplace then ReplacementWrites(EmissionMapKeyword, e) else PresenceWrites(EmissionMapKeyword, e)
  }

  /** The keyword writes of each section, in drawing order: DoMain's six, then DoSecondary's two. */
  function PanelSections(f: PanelEdits, emissionOnReplace: bool): (r: seq<seq<KeywordWrite>>)
    ensures |r| == |SectionKeywords|
  {
    [PresenceWrites(MetallicMapKeyword, f.metallic),
     SmoothnessWrites(f.smoothnessChanged, f.smoothness),
     ReplacementWrites(NormalMapKeyword, f.normal),
     PresenceWrites(OcclusionMapKeyword, f.occlusion),
     EmissionWrites(f.emission, emissionOnReplace),
     PresenceWrites(DetailMaskKeyword, f.detailMask),
     PresenceWrites(DetailAlbedoMapKeyword, f.detail),
     PresenceWrites(DetailNormalMapKeyword, f.detailNormal)]
  }

  /** The keywords each section may write, section by section. */
  const SectionKeywords: seq<set<string>> := [
    {MetallicMapKeyword},
    {SmoothnessAlbedoKeyword, SmoothnessMetallicKeyword},
    {NormalMapKeyword},
    {OcclusionMapKeyword},
    {EmissionMapKeyword},
    {DetailMaskKeyword},
    {DetailAlbedoMapKeyword},
    {DetailNormalMapKeyword}
  ]

  predicate IsPanelKeyword(k: string)
  {
    k in SectionKeywords[0] || k in SectionKeywords[1] || k in SectionKeywords[2] || k in SectionKeywords[3] ||
    k in SectionKeywords[4] || k in SectionKeywords[5] || k in SectionKeywords[6] || k in SectionKeywords[7]
  }

  /** Performing six sections one after another is performing their concatenation. */
  lemma MainSectionsInOrder(states: seq<MaterialState>, s: seq<seq<KeywordWrite>>)
    requires |s| >= 6
    ensures WithKeywords(WithKeywords(WithKeywords(WithKeywords(WithKeywords(WithKeywords(
              states, s[0]), s[1]), s[2]), s[3]), s[4]), s[5])
         == WithKeywords(states, Concat(s[..6]))
  {
    assert s[..0] == [];
    WithKeywordsNone(states);
    WithKeywordsNextSection(states, s, 0);
    WithKeywordsNextSection(states, s, 1);
    WithKeywordsNextSection(states, s, 2);
    WithKeywordsNextSection(states, s, 3);
    WithKeywordsNextSection(states, s, 4);
    WithKeywordsNextSection(states, s, 5);
  }

  /** A section names only its own keywords. */
  lemma SectionNamesOwnKeywords(f: PanelEdits, emissionOnReplace: bool, j: nat, k: string)
    requires j < |SectionKeywords|
    requires Names(PanelSections(f, emissionOnReplace)[j], k)
    ensures k in SectionKeywords[j]
  {
    var s := PanelSections(f, emissionOnReplace)[j];
    var n :| 0 <= n < |s| && s[n].keyword == k;
    if j == 1 && f.smoothnessChanged {
      assert s == EncodeSmoothness(f.smoothness);
    }
  }

  /** No keyword belongs to two sections. */
  lemma SectionKeywordsDisjoint(i: nat, j: nat, k: string)
    requires i < j < |SectionKeywords|
    ensures !(k in SectionKeywords[i] && k in SectionKeywords[j])
  {
  }

  /** A keyword of section `j` ends the redraw as section `j` alone leaves it. */
  lemma SectionDecidesOwnKeyword(keys: set<string>, f: PanelEdits, emissionOnReplace: bool, j: nat, k: string)
    requires j < |SectionKeywords| && k in SectionKeywords[j]
    ensures k in ApplyWrites(keys, Concat(PanelSections(f, emissionOnReplace))) <==> k in ApplyWrites(keys, PanelSections(f, emissionOnReplace)[j])
  {
    var s := PanelSections(f, emissionOnReplace);
    forall i | 0 <= i < |s| && i != j
      ensures !Names(s[i], k)
    {
      if Names(s[i], k) {
        SectionNamesOwnKeywords(f, emissionOnReplace, i, k);
        if i < j {
          SectionKeywordsDisjoint(i, j, k);
        } else {
          SectionKeywordsDisjoint(j, i, k);
        }
      }
    }
    ConcatOwnSection(keys, s, j, k);
  }

  /**
   * The keywords of one material after a whole redraw: each presence slot's
   * keyword is "texture assigned" when its slot reported a change, the normal
   * map keyword when its texture was replaced, the smoothness source is the
   * popup's choice when it changed, and otherwise everything is as it was;
   * keywords outside the panel are never touched.
   */
  lemma PanelKeywordRules(keys: set<string>, f: PanelEdits, emissionOnReplace: bool)
    ensures var r := ApplyWrites(keys, Concat(PanelSections(f, emissionOnReplace)));
      (MetallicMapKeyword in r <==> if f.metallic.changed then IsAssigned(f.metallic.after) else MetallicMapKeyword in keys) &&
      DecodeSmoothness(r) == (if f.smoothnessChanged then f.smoothness else DecodeSmoothness(keys)) &&
      (NormalMapKeyword in r <==>
         if f.normal.changed && f.normal.before != f.normal.after then IsAssigned(f.normal.after) else NormalMapKeyword in keys) &&
      (OcclusionMapKeyword in r <==> if f.occlusion.changed then IsAssigned(f.occlusion.after) else OcclusionMapKeyword in keys) &&
      (EmissionMapKeyword in r <==>
         if f.emission.changed && (!emissionOnReplace || f.emission.before != f.emission.after)
         then IsAssigned(f.emission.after) else EmissionMapKeyword in keys) &&
      (DetailMaskKeyword in r <==> if f.detailMask.changed then IsAssigned(f.detailMask.after) else DetailMaskKeyword in keys) &&
      (DetailAlbedoMapKeyword in r <==> if f.detail.changed then IsAssigned(f.detail.after) else DetailAlbedoMapKeyword in keys) &&
      (DetailNormalMapKeyword in r <==>
         if f.detailNormal.changed then IsAssigned(f.detailNormal.after) else DetailNormalMapKeyword in keys) &&
      (forall k :: !IsPanelKeyword(k) ==> (k in r <==> k in keys))
  {
    var s := PanelSections(f, emissionOnReplace);
    PanelSlotRule(keys, f, emissionOnReplace, 0, MetallicMapKeyword, f.metallic, false);
    PanelSlotRule(keys, f, emissionOnReplace, 2, NormalMapKeyword, f.normal, true);
    PanelSlotRule(keys, f, emissionOnReplace, 3, OcclusionMapKeyword, f.occlusion, false);
    PanelSlotRule(keys, f, emissionOnReplace, 4, EmissionMapKeyword, f.emission, emissionOnReplace);
    PanelSlotRule(keys, f, emissionOnReplace, 5, DetailMaskKeyword, f.detailMask, false);
    PanelSlotRule(keys, f, emissionOnReplace, 6, DetailAlbedoMapKeyword, f.detail, false);
    PanelSlotRule(keys, f, emissionOnReplace, 7, DetailNormalMapKeyword, f.detailNormal, false);
    PanelSmoothnessRule(keys, f, emissionOnReplace);
    PanelLeavesOtherKeywords(keys, f, emissionOnReplace);
  }

  /** The slot drawn as section `j` decides its keyword for the whole redraw. */
  lemma PanelSlotRule(keys: set<string>, f: PanelEdits, emissionOnReplace: bool, j: nat, keyword: string,
                      e: TextureEdit, onReplace: bool)
    requires j < |SectionKeywords| && keyword in SectionKeywords[j]
    requires PanelSections(f, emissionOnReplace)[j] ==
      if onReplace then ReplacementWrites(keyword, e) else PresenceWrites(keyword, e)
    ensures keyword in ApplyWrites(keys, Concat(PanelSections(f, emissionOnReplace))) <==>
      if e.changed && (!onReplace || e.before != e.after) then IsAssigned(e.after) else keyword in keys
  {
    SectionDecidesOwnKeyword(keys, f, emissionOnReplace, j, keyword);
    if e.changed && (!onReplace || e.before != e.after) {
      ApplyWritesSingle(keys, KeywordWrite(keyword, IsAssigned(e.after)));
    }
  }

  /** After a whole redraw the smoothness source is the popup's choice if it changed, the old source otherwise. */
  lemma PanelSmoothnessRule(keys: set<string>, f: PanelEdits, emissionOnReplace: bool)
    ensures DecodeSmoothness(ApplyWrites(keys, Concat(PanelSections(f, emissionOnReplace)))) ==
      if f.smoothnessChanged then f.smoothness else DecodeSmoothness(keys)
  {
    SectionDecidesOwnKeyword(keys, f, emissionOnReplace, 1, SmoothnessAlbedoKeyword);
    SectionDecidesOwnKeyword(keys, f, emissionOnReplace, 1, SmoothnessMetallicKeyword);
    if f.smoothnessChanged {
      SmoothnessRoundTrip(keys, f.smoothness);
    }
  }

  /** A redraw never touches a keyword outside the panel's sections. */
  lemma PanelLeavesOtherKeywords(keys: set<string>, f: PanelEdits, emissionOnReplace: bool)
    ensures forall k :: !IsPanelKeyword(k) ==>
      (k in ApplyWrites(keys, Concat(PanelSections(f, emissionOnReplace))) <==> k in keys)
  {
    var s := PanelSections(f, emissionOnReplace);
    forall k | !IsPanelKeyword(k)
      ensures k in ApplyWrites(keys, Concat(s)) <==> k in keys
    {
      forall i | 0 <= i < |s|
        ensures !Names(s[i], k)
      {
        if Names(s[i], k) {
          SectionNamesOwnKeywords(f, emissionOnReplace, i, k);
        }
      }
      ConcatOutside(keys, s, k);
    }
  }
}
