/** The parts of the Kubernetes API objects the router reads, and the events
    a watch stream delivers. Only the fields the router looks at are kept. */
module Kube {
  import opened Basics

  datatype ObjectMeta = ObjectMeta(name: Option<string>, namespace: Option<string>, labels: map<string, string>)

  /** `NodeAddress`: `kind` is the API's `type` field ("InternalIP", "ExternalIP", "Hostname", ...). */
  datatype NodeAddress = NodeAddress(kind: string, address: string)
  datatype NodeStatus = NodeStatus(addresses: seq<NodeAddress>)
  datatype Node = Node(metadata: ObjectMeta, status: Option<NodeStatus>)

  datatype ServicePort = ServicePort(port: i32, nodePort: Option<i32>)
  /** `ServiceSpec`: `kind` is the API's `type` field ("NodePort", "ClusterIP", ...). */
  datatype ServiceSpec = ServiceSpec(kind: Option<string>, selector: map<string, string>, ports: seq<ServicePort>)
  datatype Service = Service(metadata: ObjectMeta, spec: Option<ServiceSpec>)

  datatype PodSpec = PodSpec(nodeName: Option<string>)
  datatype Pod = Pod(metadata: ObjectMeta, spec: Option<PodSpec>)

  /** `kube_runtime::watcher::Event`. */
  datatype Event<T> = Applied(item: T) | Deleted(item: T) | Restarted(items: seq<T>)
}
