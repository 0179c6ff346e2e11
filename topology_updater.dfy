/** nfdTopologyUpdater as an object whose methods update its fields in
    place, each proved to follow the matching function of UpdaterSpec. */
module TopologyUpdater {
  import opened Topology
  import Spec = UpdaterSpec

  class NfdTopologyUpdater {
    const args: Spec.Args
    const tmPolicy: string            // nodeInfo.tmPolicy
    const configFilePath: string
    const nodeName: string            // the process-wide node name
    const nfdVersion: string          // the agent version
    var client: Option<ClientStub>
    var stop: nat                     // values waiting in the stop channel
    var certWatchClosed: bool
    var config: Spec.NFDConfig
    ghost var calls: seq<Spec.Call>   // external calls made so far

    /** The value this object stands for. */
    ghost function State(): Spec.Updater
      reads this
    {
      Spec.Updater(args, tmPolicy, configFilePath, nodeName, nfdVersion, client, stop, certWatchClosed, config, calls)
    }

    ghost predicate Valid()
      reads this
    {
      Spec.Valid(State())
    }

    constructor (args: Spec.Args, policy: string, nodeName: string, nfdVersion: string)
      ensures Valid() && State() == Spec.New(args, policy, nodeName, nfdVersion)
    {
      this.args := args;
      this.tmPolicy := policy;
      this.configFilePath := args.configFile;  // filepath.Clean is not modelled
      this.nodeName := nodeName;
      this.nfdVersion := nfdVersion;
      client := None;
      stop := 0;
      certWatchClosed := false;
      config := Spec.NFDConfig(map[]);
      calls := [];
    }

    /** Connect; `base` is what NfdBaseClient.Connect returns. */
    method Connect(base: Outcome) returns (err: Outcome)
      requires Valid()
      modifies this
      ensures Valid()
      ensures (State(), err) == Spec.Connect(old(State()), base)
      ensures args.noPublish ==> err == Ok && client == old(client) && calls == old(calls)
      ensures !args.noPublish && base.Fail? ==> err == base && client == old(client)
      ensures !args.noPublish && base.Ok? ==> err == Ok && client.Some?
    {
      if args.noPublish {
        return Ok;
      }
      calls := calls + [Spec.BaseConnect];
      if base.Fail? {
        return base;
      }
      client := Some(NodeTopologyClient);
      return Ok;
    }

    /** Disconnect: always clears the stub. */
    method Disconnect()
      requires Valid()
      modifies this
      ensures Valid()
      ensures State() == Spec.Disconnect(old(State()))
      ensures client == None
    {
      calls := calls + [Spec.BaseDisconnect];
      client := None;
    }

    /** Update: connect, advertise when a stub is set, disconnect on every
        path past a successful connect. */
    method Update(zones: ZoneList, connect: Outcome, rpc: Outcome) returns (err: Outcome)
      requires Valid()
      modifies this
      ensures Valid()
      ensures (State(), err) == Spec.Update(old(State()), zones, connect, rpc)
      ensures args.noPublish || connect.Ok? ==> client == None
      ensures !args.noPublish && connect.Fail? ==>
        err == Fail(Wrapped(Spec.ConnectFailedContext, connect.error)) && client == old(client)
    {
      err := Connect(connect);
      if err.Fail? {
        return Fail(Wrapped(Spec.ConnectFailedContext, err.error));
      }
      if client.None? {
        Disconnect();
        return Ok;
      }
      var req, rpcErr := AdvertiseNodeTopology(client.value, zones, tmPolicy, nodeName, nfdVersion, rpc);
      calls := calls + [Spec.UpdateNodeTopology(req)];
      Disconnect();
      if rpcErr.Fail? {
        return Fail(Wrapped(Spec.AdvertiseFailedContext, rpcErr.error));
      }
      return Ok;
    }

    /** Stop: a send on the stop channel that never blocks. */
    method Stop()
      requires Valid()
      modifies this
      ensures Valid()
      ensures State() == Spec.Stop(old(State()))
      ensures stop == 1
    {
      if stop < Spec.StopCapacity {
        stop := stop + 1;
      }
    }

    /** configure; `read` is what os.ReadFile gives and `unmarshal` stands
        for yaml.Unmarshal. */
    method Configure(read: Spec.FileRead, unmarshal: seq<bv8> -> Spec.Parsed) returns (err: Outcome)
      requires Valid()
      modifies this
      ensures Valid()
      ensures (State(), err) == Spec.Configure(old(State()), read, unmarshal)
    {
      if configFilePath == "" {
        return Ok;
      }
      match read
      case NotExist(_) =>
        return Ok;
      case ReadFailed(e) =>
        return Fail(e);
      case Contents(data) =>
        var parsed := unmarshal(data);
        match parsed
        case ParseError(e) =>
          return Fail(WrappedFile(Spec.ParseFailedContext, configFilePath, e));
        case Parsed(cfg) =>
          config := cfg;
          return Ok;
    }

    /** Run: set-up, then the select loop over `events` until a case
        returns or the events run out. */
    method Run<S>(setup: Spec.Setup, unmarshal: seq<bv8> -> Spec.Parsed, aggregate: S -> ZoneList,
                  events: seq<Spec.Event<S>>)
      returns (outcome: Spec.RunOutcome)
      requires Valid()
      modifies this
      ensures Valid()
      ensures (State(), outcome) == Spec.Run(old(State()), setup, unmarshal, aggregate, events)
    {
      if setup.podResClient.Fail? {
        return Spec.Returned(Fail(Wrapped(Spec.PodResClientContext, setup.podResClient.error)));
      }
      if !args.noPublish && setup.kubeconfig.Fail? {
        return Spec.Returned(setup.kubeconfig);
      }
      var err := Configure(setup.configFile, unmarshal);
      if err.Fail? {
        return Spec.Returned(Fail(Wrapped(Spec.ConfigureFailedContext, err.error)));
      }
      if setup.scanner.Fail? {
        return Spec.Returned(Fail(Wrapped(Spec.ScannerFailedContext, setup.scanner.error)));
      }
      if setup.aggregator.Fail? {
        return Spec.Returned(Fail(Wrapped(Spec.AggregatorFailedContext, setup.aggregator.error)));
      }
      if setup.certWatch.Fail? {
        return Spec.Returned(setup.certWatch);
      }

      ghost var start := State();
      var zones: ZoneList := [];
      var i := 0;
      while i < |events|
        invariant 0 <= i <= |events|
        invariant Valid()
        invariant Spec.Loop(State(), aggregate, events, i) == Spec.Loop(start, aggregate, events, 0)
        decreases |events| - i
      {
        match events[i] {
          case Tick(scan, connect, rpc) =>
            if scan.Scanned? {
              zones := aggregate(scan.resources);
              err := Update(zones, connect, rpc);
              if err.Fail? {
                return Spec.Returned(err);
              }
              if args.oneshot {
                return Spec.Returned(Ok);
              }
            }
          case CertChange(reconnect) =>
            Disconnect();
            err := Connect(reconnect);
            if err.Fail? {
              return Spec.Returned(err);
            }
          case StopSignal =>
            if stop > 0 {
              stop := stop - 1;
              certWatchClosed := true;
              return Spec.Returned(Ok);
            }
          case StopRequested =>
            Stop();
        }
        i := i + 1;
      }
      return Spec.Running;
    }
  }

  /** NewTopologyUpdater; `baseClient` is what creating the base client
      gives. On failure no updater exists and the error is returned. */
  method NewTopologyUpdater(args: Spec.Args, policy: string, nodeName: string, nfdVersion: string, baseClient: Outcome)
    returns (updater: NfdTopologyUpdater?, err: Outcome)
    ensures err == baseClient
    ensures updater == null <==> err.Fail?
    ensures updater != null ==>
      fresh(updater) && updater.Valid() && updater.State() == Spec.New(args, policy, nodeName, nfdVersion)
  {
    if baseClient.Fail? {
      return null, baseClient;
    }
    updater := new NfdTopologyUpdater(args, policy, nodeName, nfdVersion);
    err := Ok;
  }
}
