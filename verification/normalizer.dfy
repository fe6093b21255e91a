/** `processStyles` and `processComponents`: raw API records mapped one to
    one, in order, onto the records the documentation is rendered from, with
    defaults filled in. */
module Normalizer {
  import opened Wrappers
  import opened Text
  import opened Payloads

  /** A normalised style. */
  datatype StyleRecord = StyleRecord(
    id: string,
    name: string,
    description: string,
    styleType: string,
    fileKey: string,
    nodeId: string,
    remote: bool)

  /** A normalised component. */
  datatype ComponentRecord = ComponentRecord(
    id: string,
    name: string,
    description: string,
    fileKey: string,
    nodeId: string,
    remote: bool,
    thumbnailUrl: string)

  /** `value || ''` for an optional string. */
  function OrEmpty(s: Option<string>): (r: string)
    ensures s.None? ==> r == ""
    ensures s.Some? ==> r == s.value
  {
    if s.Some? && s.value != "" then s.value else ""
  }

  /** `value || false` for an optional flag. */
  function OrFalse(b: Option<bool>): (r: bool)
    ensures r <==> b == Some(true)
  {
    if b.Some? && b.value then true else false
  }

  /** `style_type.toLowerCase()` throws on an absent `style_type`; callers
      must rule that out (the orchestrator turns it into a rejection). */
  predicate HasStyleType(raw: RawStyle) {
    raw.styleType.Some?
  }

  predicate AllHaveStyleType(raws: seq<RawStyle>) {
    forall i :: 0 <= i < |raws| ==> HasStyleType(raws[i])
  }

  function NormalizeStyle(raw: RawStyle): (s: StyleRecord)
    requires HasStyleType(raw)
    ensures s.id == raw.nodeId && s.nodeId == raw.nodeId
    ensures s.name == raw.name && s.fileKey == raw.fileKey
    ensures s.styleType == Lower(raw.styleType.value) && IsLowerCased(s.styleType)
    ensures s.description == "" <==> raw.description.None? || raw.description == Some("")
    ensures s.description != "" ==> raw.description == Some(s.description)
    ensures s.remote <==> raw.remote == Some(true)
  {
    StyleRecord(
      id := raw.nodeId,
      name := raw.name,
      description := OrEmpty(raw.description),
      styleType := Lower(raw.styleType.value),
      fileKey := raw.fileKey,
      nodeId := raw.nodeId,
      remote := OrFalse(raw.remote))
  }

  /** `processStyles(styles)`: one record per raw style, in the same order. */
  function ProcessStyles(raws: seq<RawStyle>): (r: seq<StyleRecord>)
    requires AllHaveStyleType(raws)
    ensures |r| == |raws|
    ensures forall i :: 0 <= i < |raws| ==> r[i] == NormalizeStyle(raws[i])
  {
    seq(|raws|, i requires 0 <= i < |raws| => NormalizeStyle(raws[i]))
  }

  function NormalizeComponent(raw: RawComponent): (c: ComponentRecord)
    ensures c.id == raw.nodeId && c.nodeId == raw.nodeId
    ensures c.name == raw.name && c.fileKey == raw.fileKey
    ensures c.description == "" <==> raw.description.None? || raw.description == Some("")
    ensures c.description != "" ==> raw.description == Some(c.description)
    ensures c.remote <==> raw.remote == Some(true)
    ensures c.thumbnailUrl == "" <==> raw.thumbnailUrl.None? || raw.thumbnailUrl == Some("")
    ensures c.thumbnailUrl != "" ==> raw.thumbnailUrl == Some(c.thumbnailUrl)
  {
    ComponentRecord(
      id := raw.nodeId,
      name := raw.name,
      description := OrEmpty(raw.description),
      fileKey := raw.fileKey,
      nodeId := raw.nodeId,
      remote := OrFalse(raw.remote),
      thumbnailUrl := OrEmpty(raw.thumbnailUrl))
  }

  /** `processComponents(components)`: one record per raw component, in the
      same order. */
  function ProcessComponents(raws: seq<RawComponent>): (r: seq<ComponentRecord>)
    ensures |r| == |raws|
    ensures forall i :: 0 <= i < |raws| ==> r[i] == NormalizeComponent(raws[i])
  {
    seq(|raws|, i requires 0 <= i < |raws| => NormalizeComponent(raws[i]))
  }

  // ---------------------------------------------------------------------------
  // Normalising is idempotent: a normalised record, written back in the raw
  // shape, normalises to itself.
  // ---------------------------------------------------------------------------

  function StyleAsRaw(s: StyleRecord): RawStyle {
    RawStyle(s.nodeId, s.name, Some(s.description), Some(s.styleType), s.fileKey, Some(s.remote))
  }

  function ComponentAsRaw(c: ComponentRecord): RawComponent {
    RawComponent(c.nodeId, c.name, Some(c.description), c.fileKey, Some(c.remote), Some(c.thumbnailUrl))
  }

  lemma NormalizeStyleIdempotent(raw: RawStyle)
    requires HasStyleType(raw)
    ensures NormalizeStyle(StyleAsRaw(NormalizeStyle(raw))) == NormalizeStyle(raw)
  {
    LowerIdempotent(raw.styleType.value);
  }

  lemma ProcessStylesIdempotent(raws: seq<RawStyle>)
    requires AllHaveStyleType(raws)
    ensures var once := ProcessStyles(raws);
            var again := seq(|once|, i requires 0 <= i < |once| => StyleAsRaw(once[i]));
            AllHaveStyleType(again) && ProcessStyles(again) == once
  {
    var once := ProcessStyles(raws);
    forall i | 0 <= i < |raws| ensures NormalizeStyle(StyleAsRaw(once[i])) == once[i] {
      NormalizeStyleIdempotent(raws[i]);
    }
  }

  lemma ProcessComponentsIdempotent(raws: seq<RawComponent>)
    ensures var once := ProcessComponents(raws);
            var again := seq(|once|, i requires 0 <= i < |once| => ComponentAsRaw(once[i]));
            ProcessComponents(again) == once
  {
  }

  /** The documented example: `{node_id: "1:1", name: "X", style_type: "FILL"}`
      normalises to type `fill`, empty description, not remote. */
  lemma FillStyleExample(fileKey: string)
    ensures NormalizeStyle(RawStyle("1:1", "X", None, Some("FILL"), fileKey, None))
            == StyleRecord("1:1", "X", "", "fill", fileKey, "1:1", false)
  {
  }
}
