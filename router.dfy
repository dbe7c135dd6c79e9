/** The router's routing state, destination selection, seeding and the
    per-event transitions of its three watchers. */
module Routing {
  import opened Basics
  import opened Errors
  import opened Kube
  import opened Records
  import opened ParseNodes
  import opened ParseServices
  import opened ParsePods

  /** `slice.choose(rng)`: nothing for an empty slice, otherwise the element
      the random draw lands on. The draw stands for the random number
      generator, which is not modelled. */
  function Choose<T>(s: seq<T>, draw: nat): (r: Option<T>)
    ensures r.None? <==> s == []
    ensures r.Some? ==> r.value in s
  {
    if s == [] then None else Some(s[draw % |s|])
  }

  /** Every element can be chosen. */
  lemma ChooseReaches<T>(s: seq<T>, i: nat)
    requires i < |s|
    ensures Choose(s, i) == Some(s[i])
  {
  }

  /** Every name of the roster has a detail entry. */
  predicate RosterCovered(podNames: seq<string>, pods: map<string, BackendPod>)
  {
    forall i :: 0 <= i < |podNames| ==> podNames[i] in pods
  }

  /** No name occurs twice. */
  predicate Distinct(names: seq<string>)
  {
    forall i, j :: 0 <= i < j < |names| ==> names[i] != names[j]
  }

  /** A repetition-free list of exactly the elements of a set is as long as
      the set is large. */
  lemma {:induction false} DistinctCount(names: seq<string>, keys: set<string>)
    requires Distinct(names)
    requires forall i :: 0 <= i < |names| ==> names[i] in keys
    requires forall k :: k in keys ==> k in names
    ensures |names| == |keys|
    decreases |names|
  {
    if names != [] {
      var last := names[|names| - 1];
      var init := names[..|names| - 1];
      forall k | k in keys - {last}
        ensures k in init
      {
        var i :| 0 <= i < |names| && names[i] == k;
        assert init[i] == k;
      }
      DistinctCount(init, keys - {last});
    }
  }

  /** The roster lists each key of the detail map exactly once. */
  predicate RosterExact(podNames: seq<string>, pods: map<string, BackendPod>)
  {
    Distinct(podNames) && RosterCovered(podNames, pods) && (forall name :: name in pods ==> name in podNames)
  }

  class Router {
    const config: Config
    /** Node name to its InternalIP addresses. */
    var nodes: map<string, AddressableNode>
    /** The target service's descriptor, when it is known and well formed. */
    var service: Option<BalancedService>
    /** Pod name to the pod's details. */
    var pods: map<string, BackendPod>
    /** The roster random selection draws from. */
    var podNames: seq<string>

    /** The router's invariant: stored nodes are routable, every roster name
        has details, and the roster has no repeated name. */
    ghost predicate Valid()
      reads this
    {
      Routable(nodes) && RosterCovered(podNames, pods) && Distinct(podNames)
    }

    /** `Router::new`, without the Kubernetes client: all collections empty. */
    constructor (config: Config)
      ensures Valid()
      ensures this.config == config
      ensures nodes == map[] && service == None && pods == map[] && podNames == []
    {
      this.config := config;
      nodes := map[];
      service := None;
      pods := map[];
      podNames := [];
    }

    /** `get_destination`: pick a pod from the roster, resolve its node to an
        address and the listen port to a node-port. `podDraw` and `addrDraw`
        are the two random draws. */
    function GetDestination(port: u16, podDraw: nat, addrDraw: nat): (r: Result<(string, u16)>)
      reads this
      ensures podNames == [] ==> r == Err(NoPodsAvailable)
      ensures RosterCovered(podNames, pods) ==> (r == Err(NoPodsAvailable) <==> podNames == [])
      ensures r.Err? && r.error.UnknownNode? ==>
        exists name :: name in podNames && name in pods && pods[name].node == r.error.node && r.error.node !in nodes
      ensures r.Err? && r.error.NoAddressesAvailable? ==>
        r.error.node in nodes && nodes[r.error.node].addresses == []
      ensures Routable(nodes) ==> !(r.Err? && r.error.NoAddressesAvailable?)
      ensures r == Err(ServiceNotFound) ==> service.None?
      ensures r.Err? && r.error.UnknownPort? ==>
        r.error.port == port && service.Some? && port !in service.value.portMap
      ensures r.Ok? ==>
        exists name :: name in podNames && name in pods && pods[name].node in nodes
                       && r.value.0 in nodes[pods[name].node].addresses
      ensures r.Ok? ==> service.Some? && port in service.value.portMap && r.value.1 == service.value.portMap[port]
      // The outcome for the drawn pod, lookup by lookup.
      ensures podNames != [] && podNames[podDraw % |podNames|] !in pods ==> r == Err(NoPodsAvailable)
      ensures podNames != [] && podNames[podDraw % |podNames|] in pods ==>
        var node := pods[podNames[podDraw % |podNames|]].node;
        (node !in nodes ==> r == Err(UnknownNode(node)))
        && (node in nodes && nodes[node].addresses == [] ==> r == Err(NoAddressesAvailable(node)))
        && (node in nodes && nodes[node].addresses != [] ==>
              (service.None? ==> r == Err(ServiceNotFound))
              && (service.Some? && port !in service.value.portMap ==> r == Err(UnknownPort(port)))
              && (service.Some? && port in service.value.portMap ==>
                    r == Ok((nodes[node].addresses[addrDraw % |nodes[node].addresses|], service.value.portMap[port]))))
    {
      match Choose(podNames, podDraw)
      case None => Err(NoPodsAvailable)
      case Some(name) =>
        if name !in pods then Err(NoPodsAvailable)
        else
          var pod := pods[name];
          if pod.node !in nodes then Err(UnknownNode(pod.node))
          else
            match Choose(nodes[pod.node].addresses, addrDraw)
            case None => Err(NoAddressesAvailable(pod.node))
            case Some(ip) =>
              match service
              case None => Err(ServiceNotFound)
              case Some(svc) =>
                if port !in svc.portMap then Err(UnknownPort(port)) else Ok((ip, svc.portMap[port]))
    }

    /** Every backend is reachable: for each roster pod on a known node and
        each address of that node, some pair of draws routes to it. */
    lemma DestinationReachesEveryBackend(port: u16, i: nat, j: nat)
      requires i < |podNames| && podNames[i] in pods && pods[podNames[i]].node in nodes
      requires j < |nodes[pods[podNames[i]].node].addresses|
      requires service.Some? && port in service.value.portMap
      ensures GetDestination(port, i, j) == Ok((nodes[pods[podNames[i]].node].addresses[j], service.value.portMap[port]))
    {
      ChooseReaches(podNames, i);
      ChooseReaches(nodes[pods[podNames[i]].node].addresses, j);
    }

    /** With a valid state, a non-empty roster whose pods all sit on known
        nodes, and a service that maps the port, selection always succeeds. */
    lemma DestinationSucceeds(port: u16, podDraw: nat, addrDraw: nat)
      requires Valid()
      requires podNames != []
      requires forall name :: name in podNames ==> pods[name].node in nodes
      requires service.Some? && port in service.value.portMap
      ensures GetDestination(port, podDraw, addrDraw).Ok?
    {
    }

    /** `seed_nodes`, with the API `list` result as input. */
    method SeedNodes(listed: Result<seq<Node>>) returns (res: Result<()>)
      requires Valid()
      modifies this`nodes
      ensures Valid()
      ensures listed.Err? ==> res == Err(listed.error) && nodes == old(nodes)
      ensures listed.Ok? ==> res == Ok(()) && nodes == MapNodes(listed.value)
    {
      if listed.Err? {
        return Err(listed.error);
      }
      nodes := MapNodes(listed.value);
      return Ok(());
    }

    /** `seed_service`, with the API `get` result for the target as input. */
    method SeedService(got: Result<Service>) returns (res: Result<()>)
      requires Valid()
      modifies this`service
      ensures Valid()
      ensures FetchService(got).Err? ==> res == Err(FetchService(got).error) && service == old(service)
      ensures FetchService(got).Ok? ==> res == Ok(()) && service == Some(FetchService(got).value)
    {
      var fetched := FetchService(got);
      if fetched.Err? {
        return Err(fetched.error);
      }
      service := Some(fetched.value);
      return Ok(());
    }

    /** `seed_pods`, with the result of `fetch_pods` as input: on success the
        detail map and the roster are both rebuilt from the fetched pods,
        and nothing held before survives. */
    method SeedPods(fetched: Result<map<string, BackendPod>>) returns (res: Result<()>)
      requires Valid()
      requires service.Some?
      modifies this`pods, this`podNames
      ensures Valid()
      ensures fetched.Err? ==> res == Err(fetched.error) && pods == old(pods) && podNames == old(podNames)
      ensures fetched.Ok? ==> res == Ok(()) && pods == fetched.value && RosterExact(podNames, pods)
      ensures fetched.Ok? ==> |podNames| == |pods|
    {
      if fetched.Err? {
        return Err(fetched.error);
      }
      var source := fetched.value;
      pods := map[];
      podNames := [];
      var unseen := source.Keys;
      while unseen != {}
        invariant unseen <= source.Keys
        invariant pods.Keys == source.Keys - unseen
        invariant forall name :: name in pods ==> pods[name] == source[name]
        invariant RosterCovered(podNames, pods)
        invariant forall name :: name in pods ==> name in podNames
        invariant Distinct(podNames)
        decreases unseen
      {
        var name :| name in unseen;
        pods := pods[name := source[name]];
        podNames := podNames + [name];
        unseen := unseen - {name};
      }
      assert pods == source;
      DistinctCount(podNames, pods.Keys);
      return Ok(());
    }

    /** `seed`: nodes, then the service, then the pods, stopping at the first
        failure. */
    method Seed(listedNodes: Result<seq<Node>>, gotService: Result<Service>,
                fetchedPods: Result<map<string, BackendPod>>) returns (res: Result<()>)
      requires Valid()
      modifies this`nodes, this`service, this`pods, this`podNames
      ensures Valid()
      ensures listedNodes.Err? ==>
        res == Err(listedNodes.error) && nodes == old(nodes) && service == old(service)
        && pods == old(pods) && podNames == old(podNames)
      ensures listedNodes.Ok? ==> nodes == MapNodes(listedNodes.value)
      ensures listedNodes.Ok? && FetchService(gotService).Err? ==>
        res == Err(FetchService(gotService).error) && service == old(service)
        && pods == old(pods) && podNames == old(podNames)
      ensures listedNodes.Ok? && FetchService(gotService).Ok? ==>
        service == Some(FetchService(gotService).value)
      ensures listedNodes.Ok? && FetchService(gotService).Ok? && fetchedPods.Err? ==>
        res == Err(fetchedPods.error) && pods == old(pods) && podNames == old(podNames)
      ensures listedNodes.Ok? && FetchService(gotService).Ok? && fetchedPods.Ok? ==>
        res == Ok(()) && pods == fetchedPods.value && RosterExact(podNames, pods)
    {
      res := SeedNodes(listedNodes);
      if res.Err? {
        return;
      }
      res := SeedService(gotService);
      if res.Err? {
        return;
      }
      res := SeedPods(fetchedPods);
    }

    /** One event of `watch_nodes`. */
    method HandleNodeEvent(ev: Event<Node>)
      requires Valid()
      modifies this`nodes
      ensures Valid()
      ensures nodes == NodesAfter(old(nodes), ev)
    {
      match ev
      case Applied(node) =>
        nodes := nodes + MapNodes([node]);
      case Deleted(node) =>
        if node.metadata.name.Some? {
          nodes := nodes - {node.metadata.name.value};
        }
      case Restarted(items) =>
        nodes := MapNodes(items);
    }

    /** One event of `watch_services`. An Applied event for the target
        replaces the descriptor and, when it is well formed, reseeds the pods
        from `fetchedPods`; a failed reseed is only logged. */
    method HandleServiceEvent(ev: Event<Service>, fetchedPods: Result<map<string, BackendPod>>)
      requires Valid()
      modifies this`service, this`pods, this`podNames
      ensures Valid()
      ensures service == ServiceAfter(config, old(service), ev)
      ensures ReseedsPods(config, ev) && fetchedPods.Ok? ==>
        pods == fetchedPods.value && RosterExact(podNames, pods)
      ensures !(ReseedsPods(config, ev) && fetchedPods.Ok?) ==>
        pods == old(pods) && podNames == old(podNames)
    {
      match ev
      case Applied(svc) =>
        if svc.metadata.name.None? || svc.metadata.namespace.None? {
          return;
        }
        if IsTarget(config, svc.metadata) {
          match MapService(svc)
          case Ok(s) =>
            service := Some(s);
            var _ := SeedPods(fetchedPods);
          case Err(_) =>
            service := None;
        }
      case Deleted(svc) =>
        if IsTarget(config, svc.metadata) {
          service := None;
        }
      case Restarted(_) =>
    }

    /** One event of `watch_pods`, written against the earlier design in
        which the router kept a map of services: `services` is that map and
        `servicesAfter` its new value. An Applied pod that matches a service
        is stored under its name (the roster is not touched); a Deleted event
        removes the entry of `services` named like the pod. */
    method HandlePodEvent(services: map<string, BalancedService>, ev: Event<Pod>)
      returns (servicesAfter: map<string, BalancedService>)
      requires Valid()
      modifies this`pods
      ensures Valid()
      ensures ev.Applied? && (forall name :: name in services ==> !Matches(services[name].selector, ev.item.metadata.labels))
              ==> pods == old(pods)
      ensures ev.Applied? && !(forall name :: name in services ==> !Matches(services[name].selector, ev.item.metadata.labels))
              ==> exists name :: name in services && Matches(services[name].selector, ev.item.metadata.labels)
                                 && pods == old(pods) + MapPods([ev.item], name)
      ensures !ev.Applied? ==> pods == old(pods)
      ensures servicesAfter ==
        if ev.Deleted? && ev.item.metadata.name.Some? then services - {ev.item.metadata.name.value} else services
    {
      servicesAfter := services;
      match ev
      case Applied(pod) =>
        var found := FindSvcForPod(services, pod);
        if found.Some? {
          var serviceName := found.value.0;
          pods := pods + MapPods([pod], serviceName);
        }
      case Deleted(pod) =>
        if pod.metadata.name.Some? {
          servicesAfter := services - {pod.metadata.name.value};
        }
      case Restarted(_) =>
    }
  }
}
