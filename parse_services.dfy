/** Turning the target API `Service` into a `BalancedService`, and what a
    service watch event does to the router's service descriptor. */
module ParseServices {
  import opened Basics
  import opened Errors
  import opened Kube
  import opened Records

  const NodePort := "NodePort"

  /** The port-map entry of one service port, if it has a node-port. */
  function PortEntry(port: ServicePort): Option<(u16, u16)>
  {
    match port.nodePort
    case Some(nodePort) => Some((AsU16(port.port), AsU16(nodePort)))
    case None => None
  }

  /** `parse_port_map`: the ports that have a node-port, each truncated to
      16 bits; a later port with the same (truncated) number wins. */
  function ParsePortMap(ports: seq<ServicePort>): (m: PortMap)
    ensures forall p :: p in m ==>
      exists i :: 0 <= i < |ports| && ports[i].nodePort.Some? && AsU16(ports[i].port) == p
                   && m[p] == AsU16(ports[i].nodePort.value)
  {
    CollectMap(ports, PortEntry)
  }

  /** The listen ports in the map are exactly those of the ports that have a
      node-port. */
  lemma ParsePortMapKeys(ports: seq<ServicePort>, p: u16)
    ensures p in ParsePortMap(ports) <==>
      exists i :: 0 <= i < |ports| && ports[i].nodePort.Some? && AsU16(ports[i].port) == p
  {
    CollectKeys(ports, PortEntry, p);
  }

  /** The node-port kept for a listen port is that of the last port with a
      node-port that has this number. */
  lemma ParsePortMapLast(ports: seq<ServicePort>, i: nat)
    requires i < |ports| && ports[i].nodePort.Some?
    requires forall j :: i < j < |ports| ==> ports[j].nodePort.None? || AsU16(ports[j].port) != AsU16(ports[i].port)
    ensures AsU16(ports[i].port) in ParsePortMap(ports)
    ensures ParsePortMap(ports)[AsU16(ports[i].port)] == AsU16(ports[i].nodePort.value)
  {
    CollectLast(ports, PortEntry, i);
  }

  /** Port 80 with node-port 30080 is kept, port 443 without one is dropped. */
  lemma ParsePortMapExample()
    ensures ParsePortMap([ServicePort(80, Some(30080)), ServicePort(443, None)]) == map[80 := 30080]
  {
  }

  /** `map_service`. */
  function MapService(svc: Service): (r: Result<BalancedService>)
    ensures svc.spec.None? ==> r == Err(MissingSpec)
    ensures svc.spec.Some? && svc.spec.value.kind.None? ==> r == Err(WrongServiceType("None"))
    ensures svc.spec.Some? && svc.spec.value.kind.Some? && svc.spec.value.kind.value != NodePort
            ==> r == Err(WrongServiceType(svc.spec.value.kind.value))
    ensures r.Ok? <==> svc.spec.Some? && svc.spec.value.kind == Some(NodePort)
    ensures r.Ok? ==> r.value.selector == svc.spec.value.selector
    ensures r.Ok? ==> forall p :: p in r.value.portMap <==>
      exists i :: 0 <= i < |svc.spec.value.ports| && svc.spec.value.ports[i].nodePort.Some?
                   && AsU16(svc.spec.value.ports[i].port) == p
    ensures r.Ok? ==> r.value.portMap == ParsePortMap(svc.spec.value.ports)
  {
    match svc.spec
    case None => Err(MissingSpec)
    case Some(spec) =>
      if spec.kind != Some(NodePort) then
        Err(WrongServiceType(match spec.kind case Some(t) => t case None => "None"))
      else
        var portMap := ParsePortMap(spec.ports);
        assert forall p :: p in portMap <==>
          exists i :: 0 <= i < |spec.ports| && spec.ports[i].nodePort.Some? && AsU16(spec.ports[i].port) == p
        by {
          forall p { ParsePortMapKeys(spec.ports, p); }
        }
        Ok(BalancedService(spec.selector, portMap))
  }

  /** A ClusterIP service is refused. */
  lemma MapServiceClusterIP(meta: ObjectMeta, selector: map<string, string>, ports: seq<ServicePort>)
    ensures MapService(Service(meta, Some(ServiceSpec(Some("ClusterIP"), selector, ports))))
            == Err(WrongServiceType("ClusterIP"))
  {
  }

  /** `fetch_service`, with the result of the API `get` for the target as
      input: a failed call is passed on; a fetched service is accepted exactly
      when it has a spec of type NodePort, and then yields its selector and
      the port map of its ports; otherwise the refusal is MissingSpec or
      WrongServiceType. */
  function FetchService(got: Result<Service>): (r: Result<BalancedService>)
    ensures got.Err? ==> r == Err(got.error)
    ensures r.Ok? <==> got.Ok? && got.value.spec.Some? && got.value.spec.value.kind == Some(NodePort)
    ensures r.Ok? ==> r.value.selector == got.value.spec.value.selector
                      && r.value.portMap == ParsePortMap(got.value.spec.value.ports)
    ensures got.Ok? && r.Err? ==> r.error == MissingSpec || r.error.WrongServiceType?
  {
    match got
    case Err(e) => Err(e)
    case Ok(svc) => MapService(svc)
  }

  /** The event is about the configured target service: it has a name and a
      namespace, and both are the configured ones. */
  predicate IsTarget(config: Config, meta: ObjectMeta)
  {
    meta.name == Some(config.serviceName) && meta.namespace == Some(config.serviceNamespace)
  }

  /** The service descriptor after one watch event (`watch_services`). */
  function ServiceAfter(config: Config, service: Option<BalancedService>, ev: Event<Service>): (r: Option<BalancedService>)
    ensures r != service ==> !ev.Restarted? && IsTarget(config, ev.item.metadata)
    ensures r.Some? && r != service ==> ev.Applied? && MapService(ev.item) == Ok(r.value)
    ensures ev.Applied? && IsTarget(config, ev.item.metadata) ==>
      (r.Some? <==> MapService(ev.item).Ok?)
    ensures ev.Applied? && IsTarget(config, ev.item.metadata) && MapService(ev.item).Ok? ==>
      r == Some(MapService(ev.item).value)
    ensures ev.Deleted? && IsTarget(config, ev.item.metadata) ==> r.None?
  {
    match ev
    case Applied(svc) =>
      if IsTarget(config, svc.metadata) then
        match MapService(svc)
        case Ok(s) => Some(s)
        case Err(_) => None
      else service
    case Deleted(svc) => if IsTarget(config, svc.metadata) then None else service
    case Restarted(_) => service
  }

  /** Whether the event makes the watcher reseed the pods: an Applied event for
      the target whose mapping succeeds. */
  predicate ReseedsPods(config: Config, ev: Event<Service>)
  {
    ev.Applied? && IsTarget(config, ev.item.metadata) && MapService(ev.item).Ok?
  }
}
