/** The nfd-topology-updater as a value: its state, and one function per
    operation giving the new state and the returned error. The class in
    module TopologyUpdater is proved to follow these functions; the lemmas
    in module UpdaterProperties are about them. */
module UpdaterSpec {
  import opened Topology

  /** The updater's own command-line arguments (the embedded base-client
      arguments are not part of this model). */
  datatype Args = Args(noPublish: bool, oneshot: bool, kubeConfigFile: string, configFile: string)

  /** NFDConfig: per-scope lists of resource kinds to exclude. */
  datatype NFDConfig = NFDConfig(excludeList: map<string, seq<string>>)

  /** A call into code outside the model, as the updater makes it. */
  datatype Call =
    | BaseConnect                                   // NfdBaseClient.Connect
    | BaseDisconnect                                // NfdBaseClient.Disconnect
    | UpdateNodeTopology(request: NodeTopologyRequest)

  /** Capacity of the `stop` channel. */
  const StopCapacity: nat := 1

  /** The contexts `fmt.Errorf` adds in front of wrapped errors. */
  const ConnectFailedContext := "failed to connect"
  const AdvertiseFailedContext := "failed to advertise node topology"
  const PodResClientContext := "failed to get PodResource Client"
  const ConfigureFailedContext := "faild to configure Node Feature Discovery Topology Updater"
  const ScannerFailedContext := "failed to initialize ResourceMonitor instance"
  const AggregatorFailedContext := "failed to obtain node resource information"
  const ParseFailedContext := "failed to parse configuration file"

  /** The state of one nfdTopologyUpdater. `nodeName` and `nfdVersion` are
      the process-wide node name and agent version, fixed at start-up.
      `stop` is the number of values waiting in the stop channel. `calls`
      records, in order, every external call the updater has made. */
  datatype Updater = Updater(
    args: Args,
    tmPolicy: string,
    configFilePath: string,
    nodeName: string,
    nfdVersion: string,
    client: Option<ClientStub>,
    stop: nat,
    certWatchClosed: bool,
    config: NFDConfig,
    calls: seq<Call>)

  /** What every reachable state satisfies: the stop channel holds at most
      its capacity, and in dry-run mode the stub is never set. */
  predicate Valid(w: Updater)
  {
    w.stop <= StopCapacity && (w.args.noPublish ==> w.client.None?)
  }

  /** NewTopologyUpdater, once the base client exists. */
  function New(args: Args, policy: string, nodeName: string, nfdVersion: string): Updater
  {
    Updater(args, policy, args.configFile, nodeName, nfdVersion, None, 0, false, NFDConfig(map[]), [])
  }

  /** Connect: `base` is what NfdBaseClient.Connect returns. */
  function Connect(w: Updater, base: Outcome): (Updater, Outcome)
  {
    if w.args.noPublish then (w, Ok)
    else if base.Fail? then (w.(calls := w.calls + [BaseConnect]), base)
    else (w.(client := Some(NodeTopologyClient), calls := w.calls + [BaseConnect]), Ok)
  }

  /** Disconnect. */
  function Disconnect(w: Updater): Updater
  {
    w.(client := None, calls := w.calls + [BaseDisconnect])
  }

  /** Update: connect, advertise when a stub is set, and disconnect on every
      path past a successful connect (the deferred Disconnect). */
  function Update(w: Updater, zones: ZoneList, connect: Outcome, rpc: Outcome): (Updater, Outcome)
  {
    var (c, err) := Connect(w, connect);
    if err.Fail? then (c, Fail(Wrapped(ConnectFailedContext, err.error)))
    else if c.client.None? then (Disconnect(c), Ok)
    else
      var sent := c.(calls := c.calls + [UpdateNodeTopology(TopologyRequest(zones, c.tmPolicy, c.nodeName, c.nfdVersion))]);
      (Disconnect(sent), if rpc.Fail? then Fail(Wrapped(AdvertiseFailedContext, rpc.error)) else Ok)
  }

  /** Stop: a send on the stop channel that is dropped when the channel is full. */
  function Stop(w: Updater): Updater
  {
    if w.stop < StopCapacity then w.(stop := w.stop + 1) else w
  }

  /** `n` calls of Stop in a row. */
  function StopRepeated(w: Updater, n: nat): Updater
    decreases n
  {
    if n == 0 then w else StopRepeated(Stop(w), n - 1)
  }

  /** What os.ReadFile gives for the configuration file. */
  datatype FileRead =
    | NotExist(notExistError: Error)   // an error os.IsNotExist accepts
    | ReadFailed(readError: Error)     // any other read error
    | Contents(data: seq<bv8>)

  /** What yaml.Unmarshal makes of the file's bytes. */
  datatype Parsed = Parsed(config: NFDConfig) | ParseError(parseError: Error)

  /** configure. */
  function Configure(w: Updater, read: FileRead, unmarshal: seq<bv8> -> Parsed): (Updater, Outcome)
  {
    if w.configFilePath == "" then (w, Ok)
    else match read
      case NotExist(_) => (w, Ok)
      case ReadFailed(e) => (w, Fail(e))
      case Contents(data) =>
        match unmarshal(data)
        case Parsed(cfg) => (w.(config := cfg), Ok)
        case ParseError(e) => (w, Fail(WrappedFile(ParseFailedContext, w.configFilePath, e)))
  }

  /** What one Scan returns. */
  datatype Scan<S> = Scanned(resources: S) | ScanFailed(scanError: Error)

  /** What happens next while Run waits in its select: a scan tick (with the
      scan, then NfdBaseClient.Connect and UpdateNodeTopology inside Update),
      a certificate change (with NfdBaseClient.Connect), a receive on the
      stop channel, or a call of Stop from another goroutine. */
  datatype Event<S> =
    | Tick(scan: Scan<S>, connect: Outcome, rpc: Outcome)
    | CertChange(reconnect: Outcome)
    | StopSignal
    | StopRequested

  /** How Run ends: still waiting for events, or returned with a result. */
  datatype RunOutcome = Running | Returned(result: Outcome)

  /** Run's loop from event `from` on; `aggregate` is the resource
      aggregator, whose behaviour this model leaves open. */
  function Loop<S>(w: Updater, aggregate: S -> ZoneList, events: seq<Event<S>>, from: nat): (Updater, RunOutcome)
    decreases |events| - from
  {
    if from >= |events| then (w, Running)
    else match events[from]
      case Tick(scan, connect, rpc) =>
        if scan.ScanFailed? then Loop(w, aggregate, events, from + 1)
        else
          var (u, err) := Update(w, aggregate(scan.resources), connect, rpc);
          if err.Fail? then (u, Returned(err))
          else if w.args.oneshot then (u, Returned(Ok))
          else Loop(u, aggregate, events, from + 1)
      case CertChange(reconnect) =>
        var (u, err) := Connect(Disconnect(w), reconnect);
        if err.Fail? then (u, Returned(err))
        else Loop(u, aggregate, events, from + 1)
      case StopSignal =>
        // the receive only happens when the channel holds a value
        if w.stop == 0 then Loop(w, aggregate, events, from + 1)
        else (w.(stop := w.stop - 1, certWatchClosed := true), Returned(Ok))
      case StopRequested =>
        Loop(Stop(w), aggregate, events, from + 1)
  }

  /** Results of the set-up steps that come before Run's loop. */
  datatype Setup = Setup(
    podResClient: Outcome,   // podres.GetPodResClient
    kubeconfig: Outcome,     // apihelper.GetKubeconfig
    configFile: FileRead,    // os.ReadFile inside configure
    scanner: Outcome,        // resourcemonitor.NewPodResourcesScanner
    aggregator: Outcome,     // resourcemonitor.NewResourcesAggregator
    certWatch: Outcome)      // utils.CreateFsWatcher

  /** Run: the set-up steps in order, each of which may end Run with an
      error, then the loop. */
  function Run<S>(w: Updater, setup: Setup, unmarshal: seq<bv8> -> Parsed, aggregate: S -> ZoneList,
                  events: seq<Event<S>>): (Updater, RunOutcome)
  {
    if setup.podResClient.Fail? then
      (w, Returned(Fail(Wrapped(PodResClientContext, setup.podResClient.error))))
    else if !w.args.noPublish && setup.kubeconfig.Fail? then
      (w, Returned(setup.kubeconfig))
    else
      var (c, err) := Configure(w, setup.configFile, unmarshal);
      if err.Fail? then (c, Returned(Fail(Wrapped(ConfigureFailedContext, err.error))))
      else if setup.scanner.Fail? then (c, Returned(Fail(Wrapped(ScannerFailedContext, setup.scanner.error))))
      else if setup.aggregator.Fail? then (c, Returned(Fail(Wrapped(AggregatorFailedContext, setup.aggregator.error))))
      else if setup.certWatch.Fail? then (c, Returned(setup.certWatch))
      else Loop(c, aggregate, events, 0)
  }
}
