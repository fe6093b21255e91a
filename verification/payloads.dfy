/** The shapes of the payloads the Figma client resolves with, as far as the
    services read them.  Fields the services read but the API may omit are
    `Option`s; an absent optional field is `None`. */
module Payloads {
  import opened Wrappers

  /** The file document (`GET /v1/files/:key`); only `name` is rendered. */
  datatype FileData = FileData(name: string, lastModified: Option<string>, thumbnailUrl: Option<string>)

  /** One node document of `GET /v1/files/:key/nodes`. */
  datatype NodeDocument = NodeDocument(id: string, name: string)

  /** The nodes payload: node documents keyed by node id. */
  datatype NodesData = NodesData(nodes: map<string, NodeDocument>)

  /** One published style as the API lists it (`node_id`, `name`,
      `description`, `style_type`, `file_key`, `remote`). */
  datatype RawStyle = RawStyle(
    nodeId: string,
    name: string,
    description: Option<string>,
    styleType: Option<string>,
    fileKey: string,
    remote: Option<bool>)

  /** One published component as the API lists it (`node_id`, `name`,
      `description`, `file_key`, `remote`, `thumbnail_url`). */
  datatype RawComponent = RawComponent(
    nodeId: string,
    name: string,
    description: Option<string>,
    fileKey: string,
    remote: Option<bool>,
    thumbnailUrl: Option<string>)

  /** `{ meta: { styles: [...] } }`, where `meta` and `styles` may be absent. */
  datatype StylesMeta = StylesMeta(styles: Option<seq<RawStyle>>)
  datatype StylesEnvelope = StylesEnvelope(meta: Option<StylesMeta>)

  /** `{ meta: { components: [...] } }`, where `meta` and `components` may be
      absent. */
  datatype ComponentsMeta = ComponentsMeta(components: Option<seq<RawComponent>>)
  datatype ComponentsEnvelope = ComponentsEnvelope(meta: Option<ComponentsMeta>)

  /** `{ meta: { styles: [] } }` */
  const EmptyStyles: StylesEnvelope := StylesEnvelope(Some(StylesMeta(Some([]))))

  /** `{ meta: { components: [] } }` */
  const EmptyComponents: ComponentsEnvelope := ComponentsEnvelope(Some(ComponentsMeta(Some([]))))

  /** `stylesData.meta?.styles || []` */
  function StylesOf(env: StylesEnvelope): (r: seq<RawStyle>)
    ensures env.meta.Some? && env.meta.value.styles.Some? ==> r == env.meta.value.styles.value
    ensures env.meta.None? || env.meta.value.styles.None? ==> r == []
  {
    match env.meta
    case Some(StylesMeta(Some(styles))) => styles
    case _ => []
  }

  /** `componentsData.meta?.components || []` */
  function ComponentsOf(env: ComponentsEnvelope): (r: seq<RawComponent>)
    ensures env.meta.Some? && env.meta.value.components.Some? ==> r == env.meta.value.components.value
    ensures env.meta.None? || env.meta.value.components.None? ==> r == []
  {
    match env.meta
    case Some(ComponentsMeta(Some(components))) => components
    case _ => []
  }
}
