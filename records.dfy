/** The router's own records, built from the API objects. */
module Records {
  import opened Basics

  /** Listen port to node-port. */
  type PortMap = map<u16, u16>

  /** Label key to required label value. */
  type Selector = map<string, string>

  datatype AddressableNode = AddressableNode(addresses: seq<string>)
  datatype BalancedService = BalancedService(selector: Selector, portMap: PortMap)
  datatype BackendPod = BackendPod(node: string, associatedService: string)

  /** The process configuration read from the environment. */
  datatype Config = Config(serviceNamespace: string, serviceName: string, ports: seq<u16>, listenAddr: string)
}
