/**
 * The part of the Unity editor that the inspector panels talk to: materials,
 * the material editor's multi-selection, and the host enums the panels write.
 * Only what the panels observe or change is modelled.
 */
module Unity {

  /** The members of UnityEngine.Rendering.RenderQueue that the panels use. */
  datatype RenderQueue = Geometry | AlphaTest | Transparent

  /** `(int)queue`: the integer Unity assigns to each render queue. */
  function QueueValue(q: RenderQueue): int
  {
    match q
    case Geometry => 2000
    case AlphaTest => 2450
    case Transparent => 3000
  }

  /** UnityEngine.Rendering.BlendMode. */
  datatype BlendMode =
    | Zero | One | DstColor | SrcColor | OneMinusDstColor | SrcAlpha
    | OneMinusSrcColor | DstAlpha | OneMinusDstAlpha | SrcAlphaSaturate | OneMinusSrcAlpha

  /** `(int)blend`: the integer Unity assigns to each blend factor. */
  function BlendValue(b: BlendMode): int
  {
    match b
    case Zero => 0
    case One => 1
    case DstColor => 2
    case SrcColor => 3
    case OneMinusDstColor => 4
    case SrcAlpha => 5
    case OneMinusSrcColor => 6
    case DstAlpha => 7
    case OneMinusDstAlpha => 8
    case SrcAlphaSaturate => 9
    case OneMinusSrcAlpha => 10
  }

  /** The bits of MaterialGlobalIlluminationFlags; a material holds a set of them. */
  datatype GIFlag = RealtimeEmissive | BakedEmissive | EmissiveIsBlack

  /** The entries of the host's lightmap-emission popup: None, Realtime, Baked. */
  datatype LightmapEmission = NoLightmapEmission | RealtimeLightmapEmission | BakedLightmapEmission

  /** The emissive GI bits an entry of the popup stands for. */
  function EmissiveBits(l: LightmapEmission): (r: set<GIFlag>)
    ensures r <= {RealtimeEmissive, BakedEmissive} && |r| <= 1
  {
    match l
    case NoLightmapEmission => {}
    case RealtimeLightmapEmission => {RealtimeEmissive}
    case BakedLightmapEmission => {BakedEmissive}
  }

  /**
   * One redraw of the lightmap-emission popup: whether the user changed it and
   * the entry it shows afterwards. Change checks nest, so a change also makes
   * the enclosing change check report a change.
   */
  datatype LightmapEmissionEdit = LightmapEmissionEdit(changed: bool, chosen: LightmapEmission)

  /** The value of a texture slot: empty, or a reference to one texture asset. */
  datatype Texture = NoTexture | TextureRef(id: nat)

  /** Unity's implicit conversion of a texture reference to bool: "a texture is assigned". */
  predicate IsAssigned(t: Texture)
  {
    t.TextureRef?
  }

  /** Everything of a material that the panels read or write, as a value. */
  datatype MaterialState = MaterialState(
    keywords: set<string>,
    renderQueue: int,
    tags: map<string, string>,
    ints: map<string, int>,
    giFlags: set<GIFlag>)

  /** A material asset: shader keywords, render queue, override tags, int properties, GI flags. */
  class Material {
    var keywords: set<string>
    var renderQueue: int
    var tags: map<string, string>
    var ints: map<string, int>
    var giFlags: set<GIFlag>

    constructor (s: MaterialState)
      ensures State() == s
    {
      keywords, renderQueue, tags, ints, giFlags := s.keywords, s.renderQueue, s.tags, s.ints, s.giFlags;
    }

    ghost function State(): MaterialState
      reads this
    {
      MaterialState(keywords, renderQueue, tags, ints, giFlags)
    }

    predicate IsKeywordEnabled(keyword: string)
      reads this
    {
      keyword in keywords
    }

    method EnableKeyword(keyword: string)
      modifies this`keywords
      ensures keywords == old(keywords) + {keyword}
    {
      keywords := keywords + {keyword};
    }

    method DisableKeyword(keyword: string)
      modifies this`keywords
      ensures keywords == old(keywords) - {keyword}
    {
      keywords := keywords - {keyword};
    }

    method SetOverrideTag(tag: string, value: string)
      modifies this`tags
      ensures tags == old(tags)[tag := value]
    {
      tags := tags[tag := value];
    }

    method SetInt(name: string, value: int)
      modifies this`ints
      ensures ints == old(ints)[name := value]
    {
      ints := ints[name := value];
    }
  }

  /**
   * Loop progress over the selection: every material is already in its final
   * state `after`, or it lies at or past `i` and is still in its state
   * `before`. A material listed twice is finished by its first occurrence.
   */
  ghost predicate Progress(now: seq<MaterialState>, before: seq<MaterialState>, after: seq<MaterialState>, i: int)
  {
    |now| == |before| == |after| &&
    forall j :: 0 <= j < |now| ==> now[j] == after[j] || (i <= j && now[j] == before[j])
  }

  /** One material's GI flags with the emissive bits replaced by those of entry `l`. */
  function WithEmissiveBits(flags: set<GIFlag>, l: LightmapEmission): set<GIFlag>
  {
    flags - {RealtimeEmissive, BakedEmissive} + EmissiveBits(l)
  }

  /** Writing the same entry twice is writing it once. */
  lemma WithEmissiveBitsIdempotent(flags: set<GIFlag>, l: LightmapEmission)
    ensures WithEmissiveBits(WithEmissiveBits(flags, l), l) == WithEmissiveBits(flags, l)
  {
    var once := WithEmissiveBits(flags, l);
    forall f ensures f in WithEmissiveBits(once, l) <==> f in once {
    }
  }

  /**
   * What the lightmap-emission popup is assumed to write (Unity's code for it
   * is not part of this model): on a change, every material's emissive bits
   * become the chosen entry's, and its other GI bits stay.
   */
  function WithLightmapEmission(states: seq<MaterialState>, edit: LightmapEmissionEdit): seq<MaterialState>
  {
    if edit.changed
    then seq(|states|, j requires 0 <= j < |states| =>
           states[j].(giFlags := WithEmissiveBits(states[j].giFlags, edit.chosen)))
    else states
  }

  /**
   * Under the assumed popup write, the popup touches GI flags only: each
   * material keeps its keywords, queue, tags and ints; its EmissiveIsBlack bit
   * stays; its emissive bits are the chosen entry's after a change and its own
   * otherwise.
   */
  lemma LightmapEmissionWritesEmissiveBits(states: seq<MaterialState>, edit: LightmapEmissionEdit, j: nat)
    requires j < |states|
    ensures |WithLightmapEmission(states, edit)| == |states|
    ensures var t := WithLightmapEmission(states, edit)[j];
      var s := states[j];
      t.keywords == s.keywords && t.renderQueue == s.renderQueue && t.tags == s.tags && t.ints == s.ints &&
      (EmissiveIsBlack in t.giFlags <==> EmissiveIsBlack in s.giFlags) &&
      (forall f :: f != EmissiveIsBlack ==>
         (f in t.giFlags <==> if edit.changed then f in EmissiveBits(edit.chosen) else f in s.giFlags))
  {
  }

  /**
   * The material editor as the panels see it: `targets` is the multi-selection
   * and `target` the material the panel reads its state from, taken here to be
   * the first of the targets.
   */
  class MaterialEditor {
    const targets: array<Material>
    const target: Material

    constructor (targets: array<Material>)
      requires targets.Length > 0
      ensures this.targets == targets && Valid()
    {
      this.targets := targets;
      this.target := targets[0];
    }

    ghost predicate Valid()
      reads targets
    {
      targets.Length > 0 && target == targets[0]
    }

    /** The state of every selected material, in selection order. */
    ghost function States(): (r: seq<MaterialState>)
      reads targets, targets[..]
      ensures |r| == targets.Length
      ensures forall j :: 0 <= j < targets.Length ==> r[j] == targets[j].State()
    {
      seq(targets.Length, j requires 0 <= j < targets.Length reads targets, targets[..] => targets[j].State())
    }

    /**
     * LightmapEmissionProperty: the host's popup for the GI mode of emission.
     * When the user changes it, the chosen entry is written to every target.
     */
    method LightmapEmissionProperty(edit: LightmapEmissionEdit)
      modifies targets[..]
      ensures States() == WithLightmapEmission(old(States()), edit)
    {
      if edit.changed {
        ghost var before := States();
        ghost var after := WithLightmapEmission(before, edit);
        for i := 0 to targets.Length
          invariant Progress(States(), before, after, i)
        {
          ghost var prev := States();
          var m := targets[i];
          m.giFlags := WithEmissiveBits(m.giFlags, edit.chosen);
          forall j | 0 <= j < targets.Length
            ensures States()[j] == after[j] || (i + 1 <= j && States()[j] == before[j])
          {
            if targets[j] == m {
              assert before[j] == before[i];
              WithEmissiveBitsIdempotent(before[i].giFlags, edit.chosen);
            } else {
              assert States()[j] == prev[j];
            }
          }
        }
      }
    }
  }
}
