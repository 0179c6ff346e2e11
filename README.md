# nfd-topology-updater: connection lifecycle and control loop

A Dafny model of the node-feature-discovery topology updater. The updater
runs on every node. On each scan tick it scans the pod resources and
aggregates them into a list of NUMA zones. It then connects to nfd-master,
sends one `UpdateNodeTopology` request and disconnects. A change of the
TLS certificates makes it reconnect. A value on its one-slot stop channel
shuts it down. The model also covers the label-namespace and
annotation-key constants of the nfd `v1alpha1` API.

Files and modules:

- `labels.dfy`, module `Labels`: the namespace and annotation-key
  constants, and facts about them.
- `topology.dfy`, module `Topology`: errors (`External`, and `Wrapped` for
  `fmt.Errorf` with `%w`), zones, and the request. It also holds
  `AdvertiseNodeTopology`, which copies the zones into a fresh array by
  index, as the Go code does.
- `updater_spec.dfy`, module `UpdaterSpec`: the updater's state as a value
  (`Updater`). There is one function per operation: `Connect`,
  `Disconnect`, `Update`, `Stop`, `Configure`, `Loop` (the `for`/`select`
  loop) and `Run` (set-up, then the loop). The state includes a log,
  `calls`, of the external calls made: base connect, base disconnect and
  `UpdateNodeTopology(request)`.
- `updater_properties.dfy`, module `UpdaterProperties`: the lemmas.
- `topology_updater.dfy`, module `TopologyUpdater`: the class
  `NfdTopologyUpdater`. Its methods change its fields in place. Each one is
  proved to produce the state and error of the matching `UpdaterSpec`
  function. `Run` is a `while` loop over the event sequence.

External results are inputs of the model, not behaviour it computes:

- each `Tick` event carries the scan result and the results of the base
  connect and of the RPC made during that tick's `Update`;
- each `CertChange` event carries the reconnect result;
- a `Setup` record carries the results of the set-up constructors and of
  reading the configuration file;
- the resource aggregator (`aggregate`) and the YAML parser (`unmarshal`)
  are function parameters, and the model says nothing about what they do.

Behaviour to note:

- With `Oneshot`, a failed scan is skipped and the loop waits for the next
  tick. So `Run` can scan any number of times before it returns
  (`OneshotSkipsFailedScans`).
- `Update` wraps its errors with "failed to connect" or "failed to
  advertise node topology" in front. The cause is kept inside the wrapper.
  Inside the loop, only a failed reconnect after a certificate change is
  returned as is (`LoopErrorOrigin`).
- A successful reconnect after a certificate change leaves the stub set
  while the loop waits for the next event (`LoopCertChange`). So the
  connection is not always closed between cycles.
- A failed scan has no effect at all: dropping every failed-scan tick from
  the events gives the same final state and the same outcome
  (`LoopIgnoresFailedScans`).

## Model

| member | source | states |
|---|---|---|
| `Labels.SubNsSuffixes` | pkg/apis/nfd/v1alpha1/annotations_labels.go:21-30 | each sub-namespace suffix is one character longer than its namespace, starts with '.', and the rest is exactly the namespace |
| `Labels.SubNamespaceSuffix` | pkg/apis/nfd/v1alpha1/annotations_labels.go:21-30 | for any namespace, `sub + "." + ns` ends with the suffix `"." + ns`; the suffix is strictly longer than `ns`, so `ns` never ends with it |
| `Labels.NamespacesAreNotSubNamespaces` | pkg/apis/nfd/v1alpha1/annotations_labels.go:21-30 | the feature and profile namespaces do not end with their own sub-namespace suffixes |
| `Labels.AnnotationName` | pkg/apis/nfd/v1alpha1/annotations_labels.go:33-45 | the name part of a key in the annotation namespace; putting `AnnotationNs + "/"` back in front of it gives the key again |
| `Labels.AnnotationKeysInNamespace` | pkg/apis/nfd/v1alpha1/annotations_labels.go:33-45 | each of the four annotation keys starts with `AnnotationNs + "/"`, and its name part is the one it was built from |
| `Labels.AnnotationKeysDistinct` | pkg/apis/nfd/v1alpha1/annotations_labels.go:36-45 | the four annotation keys are pairwise distinct |
| `Topology.TopologyRequestFaithful` | pkg/nfd-client/topology-updater/nfd-topology-updater.go:238-256 | the request has as many zones as the input, in the same order, each with the same Name/Type/Parent/Resources/Costs; its version is the given one; its node name is the given one; its policies are exactly `[tmPolicy]` |
| `Topology.AdvertiseNodeTopology` | pkg/nfd-client/topology-updater/nfd-topology-updater.go:235-266 | the index loop fills the zone array field for field, so the request sent has the same zones, the node name, the version and `[tmPolicy]`; the returned error is the RPC's reply |
| `UpdaterProperties.DisconnectClears` | pkg/nfd-client/topology-updater/nfd-topology-updater.go:228-231 | Disconnect clears the stub whatever the prior state; a second Disconnect changes nothing except one more base disconnect in the log |
| `UpdaterProperties.ConnectCases` | pkg/nfd-client/topology-updater/nfd-topology-updater.go:213-225 | with NoPublish, Connect returns nil and touches neither the base connection nor the stub; otherwise a base failure is returned with the stub unchanged, and success sets the stub; nothing else changes |
| `UpdaterProperties.UpdateCalls` | pkg/nfd-client/topology-updater/nfd-topology-updater.go:185-202 | Update's external calls are exactly: a disconnect in dry-run mode; a connect alone when the connect fails; otherwise connect, one UpdateNodeTopology with the request built from the zones, then disconnect |
| `UpdaterProperties.UpdateOutcome` | pkg/nfd-client/topology-updater/nfd-topology-updater.go:185-202 | Update returns nil if and only if it is a dry run or both the connect and the RPC succeed; a connect or RPC failure is returned wrapped in its context; exactly one advertisement is made when publishing and the connect succeeds, none otherwise |
| `UpdaterProperties.UpdateClient` | pkg/nfd-client/topology-updater/nfd-topology-updater.go:185-202 | after a successful Connect the stub is nil when Update returns (the deferred Disconnect); after a failed Connect the stub is left as it was |
| `UpdaterProperties.UpdatePreserves` | pkg/nfd-client/topology-updater/nfd-topology-updater.go:185-202 | Update keeps the stop channel within capacity, keeps the stub unset in dry-run mode, keeps every advertisement bracketed by a connect and a disconnect, and changes nothing but the stub and the log |
| `UpdaterProperties.ReconnectPreserves` | pkg/nfd-client/topology-updater/nfd-topology-updater.go:169-174 | Disconnect followed by Connect keeps the same invariants and changes nothing but the stub and the log |
| `UpdaterProperties.StopCollapses` | pkg/nfd-client/topology-updater/nfd-topology-updater.go:205-210 | Stop always returns; any number (at least one) of Stop calls leaves exactly one value in the one-slot stop channel and changes nothing else |
| `UpdaterProperties.ConfigureCases` | pkg/nfd-client/topology-updater/nfd-topology-updater.go:268-290 | an empty path or a missing file gives nil with the config unchanged; any other read error is returned as is; a parse failure is returned wrapped with the path; a parsed file replaces the config; nothing else changes |
| `UpdaterProperties.LoopSkipsFailedScan` | pkg/nfd-client/topology-updater/nfd-topology-updater.go:151-158 | a failed scan is skipped with no Update, and the loop goes on with the next event |
| `UpdaterProperties.LoopTick` | pkg/nfd-client/topology-updater/nfd-topology-updater.go:159-167 | a successful scan runs Update on the aggregated zones; an Update error ends Run with that error; with Oneshot, Run returns nil right after the first successful Update; otherwise the loop goes on |
| `UpdaterProperties.LoopCertChange` | pkg/nfd-client/topology-updater/nfd-topology-updater.go:169-174 | a certificate event makes one Disconnect and then one Connect (no base connect in dry-run mode); it ends Run with the Connect's own error only when that Connect fails; after a successful reconnect the stub stays set |
| `UpdaterProperties.LoopStop` | pkg/nfd-client/topology-updater/nfd-topology-updater.go:176-179 | a receive on the stop channel happens only when it holds a value; it takes that value, closes the certificate watcher and returns nil; with an empty channel the loop goes on |
| `UpdaterProperties.StopPreserves` | pkg/nfd-client/topology-updater/nfd-topology-updater.go:205-210 | a Stop call during Run keeps the state valid, leaves one value in the stop channel and changes nothing else |
| `UpdaterProperties.LoopPreserves` | pkg/nfd-client/topology-updater/nfd-topology-updater.go:149-181 | over any event sequence the loop keeps the state valid; every advertisement sits between a connect just before it and a disconnect just after it, and names this node and its policy; the settings and the config never change |
| `UpdaterProperties.LoopDryRunNeverAdvertises` | pkg/nfd-client/topology-updater/nfd-topology-updater.go:149-181 | with NoPublish, no event sequence leads to an advertisement, and the stub stays unset |
| `UpdaterProperties.LoopOneshotAdvertisesAtMostOnce` | pkg/nfd-client/topology-updater/nfd-topology-updater.go:161-167 | with Oneshot, the loop makes at most one advertisement over any event sequence |
| `UpdaterProperties.LoopStopEnds` | pkg/nfd-client/topology-updater/nfd-topology-updater.go:176-179 | if a stop signal lies ahead and the stop channel holds a value by then (now, or through a Stop call before it), the loop returns, by that signal or earlier |
| `UpdaterProperties.LoopErrorOrigin` | pkg/nfd-client/topology-updater/nfd-topology-updater.go:149-181 | an error that ends the loop is always a tick's connect or RPC error wrapped by Update, or a certificate event's raw reconnect error; a failed scan never ends it |
| `UpdaterProperties.LoopIgnoresFailedScans` | pkg/nfd-client/topology-updater/nfd-topology-updater.go:151-158 | removing every failed-scan tick from the events changes neither the final state nor how the loop ends |
| `UpdaterProperties.LoopSkipsFailedScans` | pkg/nfd-client/topology-updater/nfd-topology-updater.go:151-158 | a stretch of failed-scan ticks is passed over: the loop continues after it from the same state |
| `UpdaterProperties.OneshotSkipsFailedScans` | pkg/nfd-client/topology-updater/nfd-topology-updater.go:151-167 | with Oneshot and publishing, any number of failed scans followed by a successful one with a working connect and RPC ends the loop with nil after exactly one advertisement |
| `UpdaterProperties.RunSetupFailure` | pkg/nfd-client/topology-updater/nfd-topology-updater.go:104-146 | any failing set-up step ends Run with an error before the loop, with no call to nfd-master and the stub unchanged |
| `UpdaterProperties.RunStartsLoop` | pkg/nfd-client/topology-updater/nfd-topology-updater.go:104-149 | when every set-up step succeeds, Run is the loop over all events, starting from the configured state |
| `UpdaterProperties.RunDryRunIgnoresKubeconfig` | pkg/nfd-client/topology-updater/nfd-topology-updater.go:109-116 | with NoPublish, the kubeconfig result makes no difference to Run |
| `UpdaterProperties.RunFromNew` | pkg/nfd-client/topology-updater/nfd-topology-updater.go:76-96 | from a freshly created updater, Run ends in a valid state with a well-formed call log, and with NoPublish it never advertises |
| `TopologyUpdater.NewTopologyUpdater` | pkg/nfd-client/topology-updater/nfd-topology-updater.go:76-96 | a base-client failure is returned with no updater; otherwise a fresh, valid updater with no stub, an empty stop channel, an empty config and the config file path from the arguments |
| `TopologyUpdater.NfdTopologyUpdater.constructor` | pkg/nfd-client/topology-updater/nfd-topology-updater.go:82-95 | the new object is valid and equals the initial state |
| `TopologyUpdater.NfdTopologyUpdater.Connect` | pkg/nfd-client/topology-updater/nfd-topology-updater.go:213-225 | the new state and error are those of `UpdaterSpec.Connect`: no-op with NoPublish, error with the stub unchanged, or the stub set |
| `TopologyUpdater.NfdTopologyUpdater.Disconnect` | pkg/nfd-client/topology-updater/nfd-topology-updater.go:228-231 | the stub is nil afterwards, and the state is that of `UpdaterSpec.Disconnect` |
| `TopologyUpdater.NfdTopologyUpdater.Update` | pkg/nfd-client/topology-updater/nfd-topology-updater.go:185-202 | the state and error are those of `UpdaterSpec.Update`; the stub is nil after any successful connect; a failed connect is returned wrapped, with the stub unchanged |
| `TopologyUpdater.NfdTopologyUpdater.Stop` | pkg/nfd-client/topology-updater/nfd-topology-updater.go:205-210 | the stop channel holds exactly one value afterwards, and nothing else changes |
| `TopologyUpdater.NfdTopologyUpdater.Configure` | pkg/nfd-client/topology-updater/nfd-topology-updater.go:268-290 | the config and error are those of `UpdaterSpec.Configure` |
| `TopologyUpdater.NfdTopologyUpdater.Run` | pkg/nfd-client/topology-updater/nfd-topology-updater.go:100-183 | the loop's invariant keeps the rest of the run equal to `UpdaterSpec.Loop` from the set-up state, so the final state and outcome are those of `UpdaterSpec.Run` |

## Left out

- The gRPC layer and the base client (`NfdBaseClient.Connect`, `Disconnect`, `ClientConn`, `pb.NewNodeTopologyClient`, `UpdateNodeTopology`) are foreign calls. Only their results are inputs of the model, and the log records that they were called.
- The 10-second RPC deadline is not modelled as time. An expired deadline is one more RPC failure.
- The set-up constructors in `Run` (`podres.GetPodResClient`, `apihelper.GetKubeconfig`, `NewPodResourcesScanner`, `NewResourcesAggregator`, `utils.CreateFsWatcher`) are modelled only by their success or failure.
- `resScan.Scan`, `resAggr.Aggregate` and `NewExcludeResourceList` are not part of this model. Aggregation is an uninterpreted function, and the exclusion invariant is not stated.
- The ticker, the certificate watcher's event stream, and Go's random choice among ready `select` cases are replaced by a finite event sequence. A `StopSignal` event is the select trying the stop channel: it takes a value only when the channel holds one, and otherwise the loop goes on. A `StopRequested` event is a `Stop` call from another goroutine, placed between two iterations of the loop; finer interleavings are not modelled.
- `NfdTopologyUpdater.Run`: when the events run out without a return, it returns `Running`. In this case, the Go loop would keep waiting.
- `filepath.Clean` is not modelled: the configuration path is kept as given. Clean keeps a non-empty path non-empty, so the empty-path test in `configure` is unaffected.
- `yaml.Unmarshal` is an uninterpreted function. A parse failure leaves the config as it was. Partial writes into the config before the error are not modelled.
- `UpdaterSpec.Configure`: a parsed file replaces the whole config, whereas `yaml.Unmarshal` decodes into the existing config and keeps keys the file does not set. The two agree from the empty config `NewTopologyUpdater` creates, which is the only state `Run` calls `configure` from.
- `%q` quoting of the path in the parse error is not modelled. The path is kept as a separate field of the error.
- `version.Get` and `nfdclient.NodeName` are process-wide values fixed at start-up, given to the updater when it is created.
- Logging (`klog`, `KlogDump`) has no effect on behaviour and is left out.
- `Zone` has only the five fields the request builder copies. `Resources` and `Costs` are maps whose values are just carried along. Sharing of their backing storage between the input and the request (Go copies slice headers) is not modelled.
