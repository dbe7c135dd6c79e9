# node-balancer routing core, in Dafny

node-balancer is a layer-4 load balancer for one Kubernetes Service of type
NodePort. Its `Router` keeps four collections in step with the cluster: a map
from node name to the node's InternalIP addresses, the descriptor of the
target service (its label selector and its listen-port to node-port map), a
map from pod name to the pod's details, and the roster of pod names that
random selection draws from. For each inbound connection, `get_destination`
picks a pod from the roster, resolves its node to an address and the listen
port to a node-port.

This project models that core:

- the records and the error enum (`errors.dfy`, `records.dfy`) and the parts
  of the Kubernetes objects the router reads (`kube.dfy`);
- the translators from API objects to records: `map_nodes` and
  `extract_addresses` (`parse_nodes.dfy`), `map_service` and
  `parse_port_map` (`parse_services.dfy`), `map_pods`, the selector test and
  `find_svc_for_pod`, and `build_selector` (`parse_pods.dfy`);
- the `Router` itself as a class with the four fields (`router.dfy`):
  destination selection as a function of the fields and two random draws,
  `seed`, `seed_nodes`, `seed_service` and `seed_pods`, and the body of
  each watcher's `match ev` as one method per resource kind. The node and
  service transitions are also given as pure functions (`NodesAfter`,
  `ServiceAfter`), and the methods are proved to follow them.

The router's invariant (`Router.Valid`) is that every stored node has at
least one address, every roster name has a detail entry, and the roster has
no repeated name. Every method keeps it. Under it, selection never fails with
`NoAddressesAvailable`, and fails with `NoPodsAvailable` only on an empty
roster.

Shared helpers: `basics.dfy` (Rust's `Option`, `u16`/`i32`, the `as u16`
cast, and what `filter_map(..).collect()` into a hash map does: later
entries win) and `strings.dfy` (the key order of a `BTreeMap<String, _>`,
and `join`/`split`).

Modelling choices:

- The random choice in `choose` is a caller-supplied draw. `Choose(s, d)` is
  `s[d % |s|]`, and `ChooseReaches` shows that every element can be drawn.
- A loop over a `HashMap` (the reseed loop in `seed_pods`, the search in
  `find_svc_for_pod`) visits keys in an order the model leaves open (`:|`).
  A loop over a `BTreeMap` (the selector) visits keys in ascending order
  (`SortedKeys`).
- `port as u16` and `node_port as u16` keep the low 16 bits (`AsU16`).
- Results of Kubernetes API calls are inputs. `SeedNodes` takes the result
  of the node `list`, `SeedService` the result of the `get` for the target,
  and `SeedPods` and `HandleServiceEvent` the result of `fetch_pods`.

The model follows the code, including the parts left over from an earlier
multi-service design:

- A pod Deleted event does not touch the roster or the detail map. It
  removes the entry named like the pod from a map of services
  (src/router/parse_pods.rs:64-69), which `Router` no longer has.
  `HandlePodEvent` takes that map as a parameter and returns its new value.
- A pod Applied event inserts into the detail map only. The roster is left
  as it is, so a new pod is chosen only after the next reseed
  (src/router/parse_pods.rs:52-61).
- `find_svc_for_pod` also reads that services map
  (src/router/parse_pods.rs:83), and the pod is attributed to the service
  found there.
- `seed_pods` calls `fetch_pods(&selector)`, but `fetch_pods` is declared
  with a service name and a selector (src/router/parse_pods.rs:13). The
  model takes the fetched, mapped pod map as an input.

## Model

| member | source | states |
|---|---|---|
| `Basics.AsU16` | src/router/parse_services.rs:90 | a value in 0..65535 is kept; otherwise the result is congruent to the input modulo 65536 (low 16 bits) |
| `Basics.CollectMap` | src/router/parse_nodes.rs:23-28 | every collected entry comes from some item that maps to exactly that key and value |
| `Basics.CollectKeys` | src/router/parse_nodes.rs:23-28 | a key is collected iff some item maps to it |
| `Basics.CollectLast` | src/router/parse_nodes.rs:23-28 | the value kept for a key is that of the last item mapping to it (later inserts overwrite) |
| `Strings.SortedKeys` | src/router/parse_pods.rs:107 | the keys of a `BTreeMap`, each exactly once, in strictly ascending order |
| `Strings.SplitJoin` | src/router/parse_pods.rs:109-110 | splitting a comma-joined list whose parts hold no comma gives back the parts |
| `ParseNodes.ExtractAddresses` | src/router/parse_nodes.rs:69-74 | an address is in the result iff some input address of type "InternalIP" carries it; the result is no longer than the input |
| `ParseNodes.ExtractAddressesAppend` | src/router/parse_nodes.rs:69-74 | extraction distributes over concatenation, so it keeps the original order |
| `ParseNodes.ExtractAddressesExample` | src/router/parse_nodes.rs:69-74 | [InternalIP 10.0.0.1, ExternalIP 1.2.3.4] gives ["10.0.0.1"] |
| `ParseNodes.MapNodes` | src/router/parse_nodes.rs:22-29 | every stored node has a non-empty address list |
| `ParseNodes.MapNodesKeys` | src/router/parse_nodes.rs:22-29 | a name is stored iff some node with that name has a status and an InternalIP address (nameless, statusless and address-less nodes are dropped) |
| `ParseNodes.MapNodesLast` | src/router/parse_nodes.rs:22-29 | a name stores the InternalIP addresses of the last usable node with that name |
| `ParseNodes.NodesAfter` | src/router/parse_nodes.rs:37-60 | every node event (Applied, Deleted, Restarted) keeps every stored node routable |
| `ParseNodes.NodeApplied` | src/router/parse_nodes.rs:39-45 | Applied upserts only the node's own name; an unusable node leaves the map unchanged, including an earlier entry under its name |
| `ParseNodes.NodeDeleted` | src/router/parse_nodes.rs:48-53 | Deleted removes only that name, and a nameless node changes nothing |
| `ParseNodes.NodeRestarted` | src/router/parse_nodes.rs:55-60 | Restarted rebuilds the map from the relisted nodes: a name is kept iff a usable relisted node carries it, whatever was stored before |
| `ParseServices.ParsePortMap` | src/router/parse_services.rs:88-92 | every entry comes from a port with a node-port, both numbers cast to u16 |
| `ParseServices.ParsePortMapKeys` | src/router/parse_services.rs:88-92 | the listen ports are exactly those of the ports that have a node-port |
| `ParseServices.ParsePortMapLast` | src/router/parse_services.rs:88-92 | a listen port maps to the node-port of the last port with that number |
| `ParseServices.ParsePortMapExample` | src/router/parse_services.rs:88-92 | [{80, 30080}, {443, none}] gives {80: 30080} |
| `ParseServices.MapService` | src/router/parse_services.rs:19-26 | no spec gives MissingSpec; a type other than NodePort gives WrongServiceType of the type, or of "None" when absent; otherwise the selector is passed through and the port map is parse_port_map of the ports, node-port values included |
| `ParseServices.MapServiceClusterIP` | src/router/parse_services.rs:21-23 | a ClusterIP service is refused with WrongServiceType("ClusterIP") |
| `ParseServices.FetchService` | src/router/parse_services.rs:12-17 | an API failure is passed on; a fetched service is accepted iff it has a spec of type NodePort, and then gives its selector and parse_port_map of its ports; any other refusal is MissingSpec or WrongServiceType |
| `ParseServices.ServiceAfter` | src/router/parse_services.rs:34-80 | only Applied and Deleted events for the configured name and namespace change the descriptor; a target Applied sets it iff mapping succeeds, and then to exactly the mapped value whatever was stored before; a target Deleted clears it; Restarted changes nothing |
| `ParsePods.MapPods` | src/router/parse_pods.rs:25-31 | every kept pod has a name, a spec and a node name, maps to BackendPod(node name, service name) |
| `ParsePods.MapPodsKeys` | src/router/parse_pods.rs:25-31 | a name is kept iff some pod with that name has a spec and an assigned node |
| `ParsePods.MapPodsSingle` | src/router/parse_pods.rs:52-53 | one pod yields at most one entry, under its own name |
| `ParsePods.SelectorMatches` | src/router/parse_pods.rs:84-102 | the flag loop answers true iff every selector key is a pod label with an equal value |
| `ParsePods.FindSvcForPod` | src/router/parse_pods.rs:82-104 | None iff no service's selector matches the pod; otherwise a stored service whose selector matches |
| `ParsePods.EmptySelectorMatchesAll` | src/router/parse_pods.rs:85-102 | the empty selector matches every pod |
| `ParsePods.MatchesMoreLabels` | src/router/parse_pods.rs:85-102 | extra pod labels never prevent a match |
| `ParsePods.MatchesExample` | src/router/parse_pods.rs:84-102 | app=web matches {app=web, tier=fe}, not {app=api}, not a pod with no labels |
| `ParsePods.BuildSelector` | src/router/parse_pods.rs:106-111 | the query is empty iff the selector is |
| `ParsePods.BuildSelectorRoundTrip` | src/router/parse_pods.rs:106-111 | reading the query back gives the selector (for label keys and values without ',' or '=') |
| `ParsePods.BuildSelectorTerms` | src/router/parse_pods.rs:106-111 | the comma-separated terms are the selector's key=value entries, one each, in strictly ascending key order |
| `ParsePods.BuildSelectorSmall` | src/router/parse_pods.rs:106-111 | the empty selector gives "" and a one-entry selector gives "key=value" |
| `ParsePods.BuildSelectorOrderExample` | src/router/parse_pods.rs:106-111 | {tier: fe, app: web} gives "app=web,tier=fe" |
| `Routing.Choose` | src/router/router.rs:43 | nothing iff the slice is empty; otherwise an element of it |
| `Routing.ChooseReaches` | src/router/router.rs:43 | every element can be drawn |
| `Routing.DistinctCount` | src/router/router.rs:152-155 | a repetition-free roster listing exactly a map's keys is as long as the map |
| `Routing.Router.constructor` | src/router/router.rs:24-36 | a new router holds no nodes, no service, no pods, an empty roster, and is valid |
| `Routing.Router.GetDestination` | src/router/router.rs:39-64 | empty roster gives NoPodsAvailable whatever else is stored; with every roster name covered, NoPodsAvailable iff the roster is empty; UnknownNode names the node of a roster pod that is not stored; NoAddressesAvailable only for a stored node with no address, so never under the invariant; ServiceNotFound only without a service; UnknownPort only for this port, missing from the port map; success returns an address of the node of a roster pod and the port map's node-port; for the drawn pod, the lookups decide in order: no detail entry gives NoPodsAvailable, an unstored node UnknownNode(its node), no address NoAddressesAvailable(its node), no service ServiceNotFound, an unmapped port UnknownPort(port), else the drawn address with the port's node-port; it changes no field |
| `Routing.Router.DestinationReachesEveryBackend` | src/router/router.rs:42-63 | every address of every roster pod's node is returned by some pair of draws |
| `Routing.Router.DestinationSucceeds` | src/router/router.rs:39-64 | with the invariant, a non-empty roster on known nodes and a mapped port, selection succeeds for every draw |
| `Routing.Router.SeedNodes` | src/router/router.rs:124-128 | on a listed result the node map becomes map_nodes of it; a failed list is returned and changes nothing |
| `Routing.Router.SeedService` | src/router/router.rs:130-134 | on success the service becomes Some of the fetched descriptor; a failure is returned and changes nothing |
| `Routing.Router.SeedPods` | src/router/router.rs:136-158 | on success the detail map equals the fetched map and the roster lists each of its keys exactly once, discarding all earlier contents; a failed fetch changes nothing |
| `Routing.Router.Seed` | src/router/router.rs:66-72 | nodes, then service, then pods, stopping at the first failure with that failure and leaving the later collections unchanged |
| `Routing.Router.HandleNodeEvent` | src/router/parse_nodes.rs:36-61 | the node map becomes NodesAfter of the old map and the event; the invariant is kept |
| `Routing.Router.HandleServiceEvent` | src/router/parse_services.rs:33-80 | the descriptor becomes ServiceAfter of the old one; the pods are reseeded exactly when a target Applied maps successfully and the fetch succeeds, otherwise they are unchanged |
| `Routing.Router.HandlePodEvent` | src/router/parse_pods.rs:38-74 | an Applied pod matching no service changes nothing; a matching one is merged into the detail map under its name for some matching service, the roster untouched; Deleted removes the like-named entry of the services map only; Restarted changes nothing |

## Left out

- The proxy (src/proxy/proxy.rs): TCP bind, accept, connect, byte copying and half-close are network I/O.
- The watcher loops and task spawning in `start_watchers` (src/router/router.rs:74-122): they retry forever. Only the transition made by one event is modelled.
- Locks and the order in which they are taken: the state is modelled sequentially. The lock order's intent, that every roster name has a detail entry, is part of `Router.Valid`.
- The Kubernetes client (`Router::new`'s client, `fetch_nodes`, `fetch_service`'s `get`, `fetch_pods`'s `list`): their results are inputs, and a failed call is an error input.
- The random number generator: replaced by draws passed in.
- Logging, and the `panic!`/`expect` paths. The `expect` in `seed_pods` becomes `requires service.Some?`.
- Configuration loading, `main`, the module wiring, and the `Display` texts of the errors.
- Routing.Router.SeedPods: the fetched pods are not tied to the current selector, because `fetch_pods` is a foreign call and its declared signature does not match its call site.
