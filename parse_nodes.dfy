/** Turning API `Node`s into routable nodes, and what a node watch event does
    to the router's node map. */
module ParseNodes {
  import opened Basics
  import opened Kube
  import opened Records

  const InternalIP := "InternalIP"

  /** Every stored node has at least one address to route to. */
  predicate Routable(nodes: map<string, AddressableNode>)
  {
    forall name :: name in nodes ==> nodes[name].addresses != []
  }

  /** `extract_addresses`: the addresses of type "InternalIP", in order. */
  function ExtractAddresses(addresses: seq<NodeAddress>): (r: seq<string>)
    ensures |r| <= |addresses|
    ensures forall a :: a in r <==>
      exists i :: 0 <= i < |addresses| && addresses[i].kind == InternalIP && addresses[i].address == a
    decreases |addresses|
  {
    if addresses == [] then []
    else
      var rest := ExtractAddresses(addresses[1..]);
      assert forall i :: 0 < i < |addresses| ==> addresses[i] == addresses[1..][i - 1];
      if addresses[0].kind == InternalIP then [addresses[0].address] + rest else rest
  }

  /** Extraction keeps the relative order: it distributes over concatenation,
      so the result is the InternalIP addresses of the first part followed by
      those of the second. */
  lemma {:induction false} ExtractAddressesAppend(a: seq<NodeAddress>, b: seq<NodeAddress>)
    ensures ExtractAddresses(a + b) == ExtractAddresses(a) + ExtractAddresses(b)
    decreases |a|
  {
    if a == [] {
      assert a + b == b;
    } else {
      assert (a + b)[1..] == a[1..] + b;
      ExtractAddressesAppend(a[1..], b);
    }
  }

  /** A node with an InternalIP and an ExternalIP keeps only the first. */
  lemma ExtractAddressesExample()
    ensures ExtractAddresses([NodeAddress("InternalIP", "10.0.0.1"), NodeAddress("ExternalIP", "1.2.3.4")])
            == ["10.0.0.1"]
  {
  }

  /** The map entry one API node contributes, if it has a name, a status and
      an InternalIP address. */
  function NodeEntry(node: Node): Option<(string, AddressableNode)>
  {
    match (node.metadata.name, node.status)
    case (Some(name), Some(status)) =>
      var addresses := ExtractAddresses(status.addresses);
      if addresses != [] then Some((name, AddressableNode(addresses))) else None
    case _ => None
  }

  /** The API node is usable: it has a name, a status and an InternalIP address. */
  predicate Usable(node: Node)
  {
    node.metadata.name.Some? && node.status.Some? && ExtractAddresses(node.status.value.addresses) != []
  }

  /** `map_nodes`. */
  function MapNodes(items: seq<Node>): (m: map<string, AddressableNode>)
    ensures Routable(m)
  {
    CollectMap(items, NodeEntry)
  }

  /** A name is stored exactly when some usable node carries it. */
  lemma MapNodesKeys(items: seq<Node>, name: string)
    ensures name in MapNodes(items) <==>
      exists i :: 0 <= i < |items| && Usable(items[i]) && items[i].metadata.name == Some(name)
  {
    CollectKeys(items, NodeEntry, name);
  }

  /** The addresses stored for a name are the InternalIP addresses of the
      last usable node with that name. */
  lemma MapNodesLast(items: seq<Node>, i: nat)
    requires i < |items| && Usable(items[i])
    requires forall j :: i < j < |items| ==> !Usable(items[j]) || items[j].metadata.name != items[i].metadata.name
    ensures items[i].metadata.name.value in MapNodes(items)
    ensures MapNodes(items)[items[i].metadata.name.value].addresses == ExtractAddresses(items[i].status.value.addresses)
  {
    CollectLast(items, NodeEntry, i);
  }

  /** The node map after one watch event (`watch_nodes`). */
  function NodesAfter(nodes: map<string, AddressableNode>, ev: Event<Node>): (r: map<string, AddressableNode>)
    ensures Routable(nodes) ==> Routable(r)
  {
    match ev
    case Applied(node) => nodes + MapNodes([node])
    case Deleted(node) => if node.metadata.name.Some? then nodes - {node.metadata.name.value} else nodes
    case Restarted(items) => MapNodes(items)
  }

  /** Applied: a usable node is inserted or overwritten under its own name and
      nothing else changes; an unusable one changes nothing, not even an entry
      stored earlier under its name. */
  lemma NodeApplied(nodes: map<string, AddressableNode>, node: Node)
    ensures Usable(node) ==>
      NodesAfter(nodes, Applied(node))
      == nodes[node.metadata.name.value := AddressableNode(ExtractAddresses(node.status.value.addresses))]
    ensures !Usable(node) ==> NodesAfter(nodes, Applied(node)) == nodes
  {
  }

  /** Deleted: only the named entry goes; a node without a name changes nothing. */
  lemma NodeDeleted(nodes: map<string, AddressableNode>, node: Node, other: string)
    ensures node.metadata.name.None? ==> NodesAfter(nodes, Deleted(node)) == nodes
    ensures node.metadata.name.Some? ==> node.metadata.name.value !in NodesAfter(nodes, Deleted(node))
    ensures Some(other) != node.metadata.name ==>
      (other in NodesAfter(nodes, Deleted(node)) <==> other in nodes) &&
      (other in nodes ==> NodesAfter(nodes, Deleted(node))[other] == nodes[other])
  {
  }

  /** Restarted: the map is rebuilt from the relisted nodes alone; a name
      survives exactly when a usable relisted node carries it, whatever was
      stored before. */
  lemma NodeRestarted(nodes: map<string, AddressableNode>, items: seq<Node>, name: string)
    ensures name in NodesAfter(nodes, Restarted(items)) <==>
      exists i :: 0 <= i < |items| && Usable(items[i]) && items[i].metadata.name == Some(name)
  {
    MapNodesKeys(items, name);
  }
}
