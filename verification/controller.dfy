/** The one piece of the HTTP controller that feeds the adapter's checks:
    the `ids` query parameter of `GET /files/:fileKey/nodes` is split on
    commas into the node-id list. */
module Controller {
  import opened Wrappers
  import opened Errors
  import opened Text
  import opened FigmaService

  /** Every piece as a present array entry. */
  function Entries(parts: seq<string>): (r: seq<Option<string>>)
    ensures |r| == |parts|
    ensures forall i :: 0 <= i < |parts| ==> r[i] == Some(parts[i])
  {
    seq(|parts|, i requires 0 <= i < |parts| => Some(parts[i]))
  }

  /** `ids ? ids.split(',') : []`: an absent or empty query gives no ids;
      otherwise one entry per comma-separated piece, none holding a comma,
      and the pieces join back into the query. */
  function NodeIdsFromQuery(ids: Option<string>): (r: NodeIdsArg)
    ensures !Present(ids) ==> r == Ids([])
    ensures Present(ids) ==> && r.Ids? && |r.ids| > 0
                             && (forall i :: 0 <= i < |r.ids| ==> r.ids[i].Some? && ',' !in r.ids[i].value)
                             && Join(Strings(r.ids), ',') == ids.value
  {
    if Present(ids) then
      var parts := Split(ids.value, ',');
      JoinSplit(ids.value, ',');
      assert Strings(Entries(parts)) == parts;
      Ids(Entries(parts))
    else Ids([])
  }

  /** A node lookup through the query string reaches the client exactly when
      the query is present and has no empty comma-separated piece (no
      leading, trailing or doubled comma); otherwise it is rejected with
      'Node IDs are required'.  When it reaches the client, the ids it hands
      on join back into the query. */
  lemma {:induction false} QueryNodeIdsChecked(svc: Service, fileKey: Option<string>, ids: Option<string>)
    requires Present(fileKey)
    ensures var r := GetFileNodes(svc, fileKey, NodeIdsFromQuery(ids));
            && (r.calls == [] <==> ids.None? || HasEmptyPiece(ids.value, ','))
            && (r.calls == [] ==> r.result == Failure(NodeIdsRequired))
            && (r.calls != [] ==>
                  r.calls == [FileNodesCall(fileKey.value, Split(ids.value, ','))]
                  && Join(Split(ids.value, ','), ',') == ids.value)
  {
    var arg := NodeIdsFromQuery(ids);
    if Present(ids) {
      var parts := Split(ids.value, ',');
      SplitEmptyPiece(ids.value, ',');
      JoinSplit(ids.value, ',');
      assert ValidNodeIds(arg) <==> "" !in parts by {
        if "" in parts {
          var i :| 0 <= i < |parts| && parts[i] == "";
          assert !Present(arg.ids[i]);
        }
      }
      if ValidNodeIds(arg) {
        assert Strings(arg.ids) == parts;
      }
    } else {
      assert !ValidNodeIds(arg);
    }
  }

  /** `?ids=a,,b` is rejected before the client is called. */
  lemma DoubledCommaRejected(svc: Service)
    ensures GetFileNodes(svc, Some("k"), NodeIdsFromQuery(Some("a,,b"))) == Traced(Failure(NodeIdsRequired), [])
  {
    var q := "a,,b";
    assert q[1] == ',' && q[2] == ',';
    assert HasEmptyPiece(q, ',');
    QueryNodeIdsChecked(svc, Some("k"), Some(q));
  }
}
