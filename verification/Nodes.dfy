/**
 Node identity and its file on disk (crates/gossip/src/node.rs), and the startup decision of
 `start_gossip` (crates/server/src/server.rs). The file is one cell that holds an id, a cluster and
 an incarnation; the advertised URLs are not stored and may differ after every restart.
 */
module Nodes {
  import opened Wrappers

  /** A UUID as the 128-bit number it is; its `Ord` is the numeric order. */
  type Uuid = nat

  type Url = string

  datatype PersistentNodeInfo = PersistentNodeInfo(nodeId: Uuid, clusterId: string, incarnation: nat)

  datatype NodeInfo = NodeInfo(
    nodeId: Uuid,
    clusterId: string,
    dataUrl: Url,
    ctrlUrl: Url,
    incarnation: nat)
  {
    function Advanced(): NodeInfo {
      this.(incarnation := incarnation + 1)
    }

    function Persistent(): PersistentNodeInfo {
      PersistentNodeInfo(nodeId, clusterId, incarnation)
    }
  }

  /** What a process that starts with this file content becomes. */
  function BootInfo(content: Option<PersistentNodeInfo>, freshId: Uuid, clusterId: string,
                    dataUrl: Url, ctrlUrl: Url): (node: NodeInfo)
    ensures node.dataUrl == dataUrl && node.ctrlUrl == ctrlUrl
    ensures content.Some? ==>
              node.Persistent() == content.value.(incarnation := content.value.incarnation + 1)
    ensures content.None? ==> node.Persistent() == PersistentNodeInfo(freshId, clusterId, 0)
  {
    match content
    case Some(p) => NodeInfo(p.nodeId, p.clusterId, dataUrl, ctrlUrl, p.incarnation).Advanced()
    case None => NodeInfo(freshId, clusterId, dataUrl, ctrlUrl, 0)
  }

  /** The node file: `None` until the first start. */
  class NodeFile {
    var content: Option<PersistentNodeInfo>

    constructor ()
      ensures content == None
    {
      content := None;
    }

    method Load(dataUrl: Url, ctrlUrl: Url) returns (node: Option<NodeInfo>)
      ensures node.None? <==> content.None?
      ensures node.Some? ==>
                && node.value.Persistent() == content.value
                && node.value.dataUrl == dataUrl && node.value.ctrlUrl == ctrlUrl
    {
      match content {
        case None => node := None;
        case Some(p) => node := Some(NodeInfo(p.nodeId, p.clusterId, dataUrl, ctrlUrl, p.incarnation));
      }
    }

    method Persist(node: NodeInfo)
      modifies this
      ensures content == Some(node.Persistent())
    {
      content := Some(PersistentNodeInfo(node.nodeId, node.clusterId, node.incarnation));
    }
  }

  /** Load the node file, advance the incarnation if there was one, and write it back before use. */
  method StartNode(file: NodeFile, freshId: Uuid, clusterId: string, dataUrl: Url, ctrlUrl: Url)
    returns (node: NodeInfo)
    modifies file
    ensures node == BootInfo(old(file.content), freshId, clusterId, dataUrl, ctrlUrl)
    ensures file.content == Some(node.Persistent())
  {
    var loaded := file.Load(dataUrl, ctrlUrl);
    if loaded.Some? {
      node := loaded.value;
      node := node.(incarnation := node.incarnation + 1);
      file.Persist(node);
    } else {
      node := NodeInfo(freshId, clusterId, dataUrl, ctrlUrl, 0);
      file.Persist(node);
    }
  }
}
