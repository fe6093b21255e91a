/** The adapter around the Figma client (`FigmaService`): argument checks,
    the empty-envelope fallbacks, and hand-through of payloads and client
    rejections.  The client is abstract: each endpoint is a total function
    from its arguments to a resolved response (whose `data` may be absent) or
    a rejection.  Every operation also reports the client calls it made, so
    that "rejected before any client call" and "calls the client exactly once
    with the same arguments" can be stated. */
module FigmaService {
  import opened Wrappers
  import opened Errors
  import opened Payloads

  /** JavaScript truthiness of a string argument: `undefined`, `null` and `''`
      are falsy. */
  predicate Present(s: Option<string>) {
    s.Some? && s.value != ""
  }

  /** One call made on the client. */
  datatype Call =
    | FileCall(fileKey: string)
    | FileNodesCall(fileKey: string, nodeIds: seq<string>)
    | FileStylesCall(fileKey: string)
    | FileComponentsCall(fileKey: string)

  /** The `figma-js` client: one function per endpoint.  `Success(None)` is a
      response without `data`. */
  datatype Client = Client(
    file: string -> Result<Option<FileData>, Error>,
    fileNodes: (string, seq<string>) -> Result<Option<NodesData>, Error>,
    fileStyles: string -> Result<Option<StylesEnvelope>, Error>,
    fileComponents: string -> Result<Option<ComponentsEnvelope>, Error>)

  /** The `figma` section of the configuration. */
  datatype FigmaConfig = FigmaConfig(accessToken: Option<string>)

  /** A constructed `FigmaService`. */
  datatype Service = Service(client: Client)

  /** What an operation settled with, and the client calls it made. */
  datatype Traced<T> = Traced(result: Result<T, Error>, calls: seq<Call>)

  /** `new FigmaService(client)`.  `injected` is the optional constructor
      argument, `figma` is `config.figma`, and `makeClient` is the `figma-js`
      `Client` factory applied to a personal access token. */
  function New(injected: Option<Client>, figma: Option<FigmaConfig>, makeClient: string -> Client): (r: Result<Service, Error>)
    ensures injected.Some? ==> r == Success(Service(injected.value))
    ensures injected.None? && figma.Some? && Present(figma.value.accessToken)
            ==> r == Success(Service(makeClient(figma.value.accessToken.value)))
    ensures r.Failure? <==> injected.None? && !(figma.Some? && Present(figma.value.accessToken))
    ensures r.Failure? ==> r.error == AccessTokenNotConfigured
    ensures r.Failure? ==> r.error.Message() == "Figma access token is not configured"
  {
    if injected.Some? then
      Success(Service(injected.value))
    else if figma.Some? && figma.value.accessToken.Some? && figma.value.accessToken.value != "" then
      Success(Service(makeClient(figma.value.accessToken.value)))
    else
      Failure(AccessTokenNotConfigured)
  }

  /** `getFile(fileKey)`.  `envToken` is `process.env.FIGMA_ACCESS_TOKEN` at
      the time of the call. */
  function GetFile(svc: Service, envToken: Option<string>, fileKey: Option<string>): (r: Traced<Option<FileData>>)
    ensures !Present(fileKey) ==> r == Traced(Failure(FileKeyRequired), [])
    ensures !Present(fileKey) ==> r.result.error.Message() == "File key is required"
    ensures Present(fileKey) && !Present(envToken) ==> r == Traced(Failure(AccessTokenNotConfigured), [])
    ensures r.calls != [] <==> Present(fileKey) && Present(envToken)
    ensures r.calls != [] ==> r.calls == [FileCall(fileKey.value)] && r.result == svc.client.file(fileKey.value)
  {
    match fileKey
    case None => Traced(Failure(FileKeyRequired), [])
    case Some(key) =>
      if key == "" then Traced(Failure(FileKeyRequired), [])
      else if envToken.None? || envToken.value == "" then Traced(Failure(AccessTokenNotConfigured), [])
      else Traced(svc.client.file(key), [FileCall(key)])
  }

  /** The `nodeIds` argument of `getFileNodes`: absent, some value that is not
      an array, or an array whose entries may be absent. */
  datatype NodeIdsArg = Missing | NotAnArray | Ids(ids: seq<Option<string>>)

  /** A usable node-id list: an array with at least one entry, every entry a
      non-empty string. */
  predicate ValidNodeIds(a: NodeIdsArg) {
    a.Ids? && |a.ids| > 0 && forall i :: 0 <= i < |a.ids| ==> Present(a.ids[i])
  }

  /** `ids.some(id => !id)`, scanning from the left. */
  function SomeEmpty(ids: seq<Option<string>>): (r: bool)
    ensures r <==> exists i :: 0 <= i < |ids| && !Present(ids[i])
  {
    if |ids| == 0 then false
    else if ids[0].None? || ids[0].value == "" then true
    else
      assert forall i :: 1 <= i < |ids| ==> ids[i] == ids[1..][i - 1];
      SomeEmpty(ids[1..])
  }

  /** The entries of a list that holds only present strings. */
  function Strings(ids: seq<Option<string>>): (r: seq<string>)
    requires forall i :: 0 <= i < |ids| ==> ids[i].Some?
    ensures |r| == |ids|
    ensures forall i :: 0 <= i < |ids| ==> ids[i] == Some(r[i])
  {
    seq(|ids|, i requires 0 <= i < |ids| => ids[i].value)
  }

  /** `getFileNodes(fileKey, nodeIds)`: the file-key check runs first. */
  function GetFileNodes(svc: Service, fileKey: Option<string>, nodeIds: NodeIdsArg): (r: Traced<Option<NodesData>>)
    ensures !Present(fileKey) ==> r == Traced(Failure(FileKeyRequired), [])
    ensures !Present(fileKey) ==> r.result.error.Message() == "File key is required"
    ensures Present(fileKey) && !ValidNodeIds(nodeIds) ==> r == Traced(Failure(NodeIdsRequired), [])
    ensures Present(fileKey) && !ValidNodeIds(nodeIds) ==> r.result.error.Message() == "Node IDs are required"
    ensures r.calls != [] <==> Present(fileKey) && ValidNodeIds(nodeIds)
    ensures r.calls != [] ==>
              var ids := Strings(nodeIds.ids);
              r.calls == [FileNodesCall(fileKey.value, ids)] && r.result == svc.client.fileNodes(fileKey.value, ids)
  {
    if fileKey.None? || fileKey.value == "" then
      Traced(Failure(FileKeyRequired), [])
    else
      match nodeIds
      case Missing => Traced(Failure(NodeIdsRequired), [])
      case NotAnArray => Traced(Failure(NodeIdsRequired), [])
      case Ids(ids) =>
        if |ids| == 0 || SomeEmpty(ids) then Traced(Failure(NodeIdsRequired), [])
        else
          var strs := Strings(ids);
          Traced(svc.client.fileNodes(fileKey.value, strs), [FileNodesCall(fileKey.value, strs)])
  }

  /** `getFileStyles(fileKey)`: a response without data becomes
      `{ meta: { styles: [] } }`. */
  function GetFileStyles(svc: Service, fileKey: Option<string>): (r: Traced<StylesEnvelope>)
    ensures !Present(fileKey) ==> r == Traced(Failure(FileKeyRequired), [])
    ensures !Present(fileKey) ==> r.result.error.Message() == "File key is required"
    ensures Present(fileKey) ==> r.calls == [FileStylesCall(fileKey.value)]
    ensures Present(fileKey) ==>
              match svc.client.fileStyles(fileKey.value)
              case Failure(e) => r.result == Failure(e)
              case Success(Some(data)) => r.result == Success(data)
              case Success(None) => r.result == Success(EmptyStyles)
  {
    if fileKey.None? || fileKey.value == "" then
      Traced(Failure(FileKeyRequired), [])
    else
      var key := fileKey.value;
      var result := match svc.client.fileStyles(key)
        case Failure(e) => Failure(e)
        case Success(data) => Success(data.GetOr(EmptyStyles));
      Traced(result, [FileStylesCall(key)])
  }

  /** `getFileComponents(fileKey)`: a response without data becomes
      `{ meta: { components: [] } }`. */
  function GetFileComponents(svc: Service, fileKey: Option<string>): (r: Traced<ComponentsEnvelope>)
    ensures !Present(fileKey) ==> r == Traced(Failure(FileKeyRequired), [])
    ensures !Present(fileKey) ==> r.result.error.Message() == "File key is required"
    ensures Present(fileKey) ==> r.calls == [FileComponentsCall(fileKey.value)]
    ensures Present(fileKey) ==>
              match svc.client.fileComponents(fileKey.value)
              case Failure(e) => r.result == Failure(e)
              case Success(Some(data)) => r.result == Success(data)
              case Success(None) => r.result == Success(EmptyComponents)
  {
    if fileKey.None? || fileKey.value == "" then
      Traced(Failure(FileKeyRequired), [])
    else
      var key := fileKey.value;
      var result := match svc.client.fileComponents(key)
        case Failure(e) => Failure(e)
        case Success(data) => Success(data.GetOr(EmptyComponents));
      Traced(result, [FileComponentsCall(key)])
  }

  /** The access-token check at call time belongs to `getFile` alone: with the
      token absent, `getFile` is rejected while the other three operations
      still reach the client. */
  lemma {:induction false} OnlyGetFileChecksToken(svc: Service, fileKey: Option<string>, nodeIds: NodeIdsArg)
    requires Present(fileKey)
    ensures GetFile(svc, None, fileKey).result == Failure(AccessTokenNotConfigured)
    ensures GetFileStyles(svc, fileKey).calls != []
    ensures GetFileComponents(svc, fileKey).calls != []
    ensures ValidNodeIds(nodeIds) ==> GetFileNodes(svc, fileKey, nodeIds).calls != []
  {
  }
}
