/** What the topology updater promises, proved about the functions of
    module UpdaterSpec. */
module UpdaterProperties {
  import opened Topology
  import opened UpdaterSpec

  // ---------------------------------------------------------------------
  // Counting and shaping the call log

  /** Number of UpdateNodeTopology calls in a log. */
  function Advertisements(calls: seq<Call>): nat
  {
    if calls == [] then 0
    else Advertisements(calls[..|calls| - 1]) + (if calls[|calls| - 1].UpdateNodeTopology? then 1 else 0)
  }

  lemma {:induction false} AdvertisementsAppend(a: seq<Call>, b: seq<Call>)
    ensures Advertisements(a + b) == Advertisements(a) + Advertisements(b)
    decreases |b|
  {
    if b == [] {
      assert a + b == a;
    } else {
      var b' := b[..|b| - 1];
      assert (a + b)[..|a + b| - 1] == a + b';
      AdvertisementsAppend(a, b');
    }
  }

  /** The call blocks Update and a reconnect append, counted. */
  lemma AdvertisementsOfBlocks(req: NodeTopologyRequest)
    ensures Advertisements([BaseConnect]) == 0 && Advertisements([BaseDisconnect]) == 0
    ensures Advertisements([BaseDisconnect, BaseConnect]) == 0
    ensures Advertisements([BaseConnect, UpdateNodeTopology(req), BaseDisconnect]) == 1
  {
    assert [BaseConnect][..0] == [] && [BaseDisconnect][..0] == [];
    assert [BaseDisconnect, BaseConnect][..1] == [BaseDisconnect];
    var block := [BaseConnect, UpdateNodeTopology(req), BaseDisconnect];
    assert block[..2] == [BaseConnect, UpdateNodeTopology(req)];
    assert block[..2][..1] == [BaseConnect];
  }

  /** Every UpdateNodeTopology call sits between a connect made just before
      it and a disconnect made just after it. */
  predicate Bracketed(calls: seq<Call>)
  {
    forall i :: 0 <= i < |calls| && calls[i].UpdateNodeTopology? ==>
      0 < i < |calls| - 1 && calls[i - 1] == BaseConnect && calls[i + 1] == BaseDisconnect
  }

  /** Every request sent names node `nodeName` and carries the one policy `tmPolicy`. */
  predicate RequestsFor(calls: seq<Call>, nodeName: string, tmPolicy: string)
  {
    forall i :: 0 <= i < |calls| && calls[i].UpdateNodeTopology? ==>
      calls[i].request.nodeName == nodeName && calls[i].request.topologyPolicies == [tmPolicy]
  }

  /** The log shape every reachable updater keeps. */
  predicate WellFormedLog(w: Updater)
  {
    Bracketed(w.calls) && RequestsFor(w.calls, w.nodeName, w.tmPolicy)
  }

  lemma BracketedAppend(a: seq<Call>, b: seq<Call>)
    requires Bracketed(a) && Bracketed(b)
    ensures Bracketed(a + b)
  {
    var c := a + b;
    forall i | 0 <= i < |c| && c[i].UpdateNodeTopology?
      ensures 0 < i < |c| - 1 && c[i - 1] == BaseConnect && c[i + 1] == BaseDisconnect
    {
      if i < |a| {
        assert a[i] == c[i];
      } else {
        assert b[i - |a|] == c[i];
      }
    }
  }

  lemma RequestsForAppend(a: seq<Call>, b: seq<Call>, nodeName: string, tmPolicy: string)
    requires RequestsFor(a, nodeName, tmPolicy) && RequestsFor(b, nodeName, tmPolicy)
    ensures RequestsFor(a + b, nodeName, tmPolicy)
  {
    var c := a + b;
    forall i | 0 <= i < |c| && c[i].UpdateNodeTopology?
      ensures c[i].request.nodeName == nodeName && c[i].request.topologyPolicies == [tmPolicy]
    {
      if i < |a| {
        assert a[i] == c[i];
      } else {
        assert b[i - |a|] == c[i];
      }
    }
  }

  // ---------------------------------------------------------------------
  // Connect and Disconnect

  /** Disconnect clears the stub whatever the state, and a second Disconnect
      changes nothing but the log. */
  lemma DisconnectClears(w: Updater)
    ensures Disconnect(w).client == None
    ensures Disconnect(w).calls == w.calls + [BaseDisconnect]
    ensures Disconnect(Disconnect(w)).(calls := w.calls) == Disconnect(w).(calls := w.calls)
  {
  }

  /** Connect in dry-run mode touches nothing; otherwise a failed base
      connect is returned with the stub unchanged, and a successful one sets
      the stub. Nothing but the stub and the log ever changes. */
  lemma ConnectCases(w: Updater, base: Outcome)
    ensures w.args.noPublish ==> Connect(w, base) == (w, Ok)
    ensures !w.args.noPublish && base.Fail? ==>
      Connect(w, base).1 == base && Connect(w, base).0.client == w.client &&
      Connect(w, base).0.calls == w.calls + [BaseConnect]
    ensures !w.args.noPublish && base.Ok? ==>
      Connect(w, base).1 == Ok && Connect(w, base).0.client.Some? &&
      Connect(w, base).0.calls == w.calls + [BaseConnect]
    ensures Connect(w, base).0.(client := w.client, calls := w.calls) == w
  {
  }

  // ---------------------------------------------------------------------
  // Update

  /** The calls Update makes: in dry-run mode only the deferred disconnect;
      otherwise a connect, and when it succeeds exactly one UpdateNodeTopology
      with the request built from `zones`, followed by a disconnect. */
  lemma UpdateCalls(w: Updater, zones: ZoneList, connect: Outcome, rpc: Outcome)
    requires Valid(w)
    ensures var u := Update(w, zones, connect, rpc).0;
      u.calls == w.calls +
        if w.args.noPublish then [BaseDisconnect]
        else if connect.Fail? then [BaseConnect]
        else [BaseConnect, UpdateNodeTopology(TopologyRequest(zones, w.tmPolicy, w.nodeName, w.nfdVersion)), BaseDisconnect]
  {
    var c := Connect(w, connect).0;
    if !w.args.noPublish && connect.Ok? {
      var req := TopologyRequest(zones, w.tmPolicy, w.nodeName, w.nfdVersion);
      assert c.calls + [UpdateNodeTopology(req)] + [BaseDisconnect]
          == w.calls + [BaseConnect, UpdateNodeTopology(req), BaseDisconnect];
    }
  }

  /** Update returns nil exactly when the connect succeeded and either there
      was no stub to advertise on (dry-run) or the RPC succeeded; it makes one
      advertisement exactly when it publishes and the connect succeeded. */
  lemma UpdateOutcome(w: Updater, zones: ZoneList, connect: Outcome, rpc: Outcome)
    requires Valid(w)
    ensures var (u, err) := Update(w, zones, connect, rpc);
      (err == Ok <==> w.args.noPublish || (connect.Ok? && rpc.Ok?)) &&
      (!w.args.noPublish && connect.Fail? ==> err == Fail(Wrapped(ConnectFailedContext, connect.error))) &&
      (!w.args.noPublish && connect.Ok? && rpc.Fail? ==> err == Fail(Wrapped(AdvertiseFailedContext, rpc.error))) &&
      Advertisements(u.calls) == Advertisements(w.calls) + (if !w.args.noPublish && connect.Ok? then 1 else 0)
  {
    UpdateCalls(w, zones, connect, rpc);
    var u := Update(w, zones, connect, rpc).0;
    var req := TopologyRequest(zones, w.tmPolicy, w.nodeName, w.nfdVersion);
    var added := if w.args.noPublish then [BaseDisconnect]
                 else if connect.Fail? then [BaseConnect]
                 else [BaseConnect, UpdateNodeTopology(req), BaseDisconnect];
    AdvertisementsAppend(w.calls, added);
    AdvertisementsOfBlocks(req);
  }

  /** On every path past a successful connect the stub is cleared; when the
      connect fails the stub is left as it was. */
  lemma UpdateClient(w: Updater, zones: ZoneList, connect: Outcome, rpc: Outcome)
    ensures w.args.noPublish || connect.Ok? ==> Update(w, zones, connect, rpc).0.client == None
    ensures !w.args.noPublish && connect.Fail? ==> Update(w, zones, connect, rpc).0.client == w.client
  {
  }

  /** Update keeps the state valid and the log well formed, and changes
      nothing but the stub and the log. */
  lemma UpdatePreserves(w: Updater, zones: ZoneList, connect: Outcome, rpc: Outcome)
    requires Valid(w) && WellFormedLog(w)
    ensures var u := Update(w, zones, connect, rpc).0;
      Valid(u) && WellFormedLog(u) && u.(client := w.client, calls := w.calls) == w
  {
    UpdateCalls(w, zones, connect, rpc);
    var req := TopologyRequest(zones, w.tmPolicy, w.nodeName, w.nfdVersion);
    var added := if w.args.noPublish then [BaseDisconnect]
                 else if connect.Fail? then [BaseConnect]
                 else [BaseConnect, UpdateNodeTopology(req), BaseDisconnect];
    assert Bracketed(added);
    assert RequestsFor(added, w.nodeName, w.tmPolicy);
    BracketedAppend(w.calls, added);
    RequestsForAppend(w.calls, added, w.nodeName, w.tmPolicy);
  }

  /** Reconnecting on a certificate change keeps the state valid and the log
      well formed. */
  lemma ReconnectPreserves(w: Updater, reconnect: Outcome)
    requires Valid(w) && WellFormedLog(w)
    ensures var u := Connect(Disconnect(w), reconnect).0;
      Valid(u) && WellFormedLog(u) && u.(client := w.client, calls := w.calls) == w
  {
    var added := if w.args.noPublish then [BaseDisconnect] else [BaseDisconnect, BaseConnect];
    assert Connect(Disconnect(w), reconnect).0.calls == w.calls + added;
    assert Bracketed(added) && RequestsFor(added, w.nodeName, w.tmPolicy);
    BracketedAppend(w.calls, added);
    RequestsForAppend(w.calls, added, w.nodeName, w.tmPolicy);
  }

  // ---------------------------------------------------------------------
  // Stop

  /** Stop never blocks and any positive number of Stop calls leaves exactly
      one value in the stop channel, changing nothing else. */
  lemma {:induction false} StopCollapses(w: Updater, n: nat)
    requires w.stop <= StopCapacity && n >= 1
    ensures StopRepeated(w, n) == w.(stop := 1)
    decreases n
  {
    if n > 1 {
      StopCollapses(Stop(w), n - 1);
    }
  }

  // ---------------------------------------------------------------------
  // configure

  /** configure: an empty path or a missing file is not an error and leaves
      the configuration alone; any other read error is returned as is; a
      parse failure is returned wrapped; a parsed file replaces the
      configuration. Nothing but the configuration changes. */
  lemma ConfigureCases(w: Updater, read: FileRead, unmarshal: seq<bv8> -> Parsed)
    ensures w.configFilePath == "" ==> Configure(w, read, unmarshal) == (w, Ok)
    ensures w.configFilePath != "" && read.NotExist? ==> Configure(w, read, unmarshal) == (w, Ok)
    ensures w.configFilePath != "" && read.ReadFailed? ==> Configure(w, read, unmarshal) == (w, Fail(read.readError))
    ensures w.configFilePath != "" && read.Contents? && unmarshal(read.data).ParseError? ==>
      Configure(w, read, unmarshal) ==
        (w, Fail(WrappedFile(ParseFailedContext, w.configFilePath, unmarshal(read.data).parseError)))
    ensures w.configFilePath != "" && read.Contents? && unmarshal(read.data).Parsed? ==>
      Configure(w, read, unmarshal) == (w.(config := unmarshal(read.data).config), Ok)
    ensures Configure(w, read, unmarshal).0.(config := w.config) == w
  {
  }

  // ---------------------------------------------------------------------
  // One event of Run's loop

  /** A failed scan is skipped: no Update, and the loop goes on. */
  lemma LoopSkipsFailedScan<S>(w: Updater, aggregate: S -> ZoneList, events: seq<Event<S>>, k: nat)
    requires k < |events| && events[k].Tick? && events[k].scan.ScanFailed?
    ensures Loop(w, aggregate, events, k) == Loop(w, aggregate, events, k + 1)
  {
  }

  /** A successful scan runs Update on the aggregated zones; an Update error
      ends the loop with that error, a one-shot updater returns nil right
      after the first successful Update, and otherwise the loop goes on. */
  lemma LoopTick<S>(w: Updater, aggregate: S -> ZoneList, events: seq<Event<S>>, k: nat)
    requires k < |events| && events[k].Tick? && events[k].scan.Scanned?
    ensures var (u, err) := Update(w, aggregate(events[k].scan.resources), events[k].connect, events[k].rpc);
      Loop(w, aggregate, events, k) ==
        if err.Fail? then (u, Returned(err))
        else if w.args.oneshot then (u, Returned(Ok))
        else Loop(u, aggregate, events, k + 1)
  {
  }

  /** A certificate change disconnects and then connects (no connect in
      dry-run mode), and ends the loop only when that connect fails, with
      the connect's own error; after a successful reconnect the stub stays
      set while the loop waits. */
  lemma LoopCertChange<S>(w: Updater, aggregate: S -> ZoneList, events: seq<Event<S>>, k: nat)
    requires k < |events| && events[k].CertChange?
    ensures var u := Connect(Disconnect(w), events[k].reconnect).0;
      u.calls == w.calls + (if w.args.noPublish then [BaseDisconnect] else [BaseDisconnect, BaseConnect]) &&
      (!w.args.noPublish && events[k].reconnect.Fail? ==>
         Loop(w, aggregate, events, k) == (u, Returned(events[k].reconnect))) &&
      (w.args.noPublish || events[k].reconnect.Ok? ==>
         Loop(w, aggregate, events, k) == Loop(u, aggregate, events, k + 1)) &&
      (!w.args.noPublish && events[k].reconnect.Ok? ==> u.client.Some?)
  {
  }

  /** A receive on the stop channel is only possible when the channel holds
      a value; it takes the value, closes the certificate watcher and
      returns nil. */
  lemma LoopStop<S>(w: Updater, aggregate: S -> ZoneList, events: seq<Event<S>>, k: nat)
    requires k < |events| && events[k].StopSignal?
    ensures w.stop > 0 ==>
      Loop(w, aggregate, events, k) == (w.(stop := w.stop - 1, certWatchClosed := true), Returned(Ok))
    ensures w.stop == 0 ==> Loop(w, aggregate, events, k) == Loop(w, aggregate, events, k + 1)
  {
  }

  /** Stop keeps the state valid and makes no external call. */
  lemma StopPreserves(w: Updater)
    requires Valid(w)
    ensures Valid(Stop(w)) && Stop(w).stop == 1 && Stop(w).(stop := w.stop) == w
  {
  }

  // ---------------------------------------------------------------------
  // Failed scans do not matter

  predicate FailedScan<S>(e: Event<S>)
  {
    e.Tick? && e.scan.ScanFailed?
  }

  /** The events with every failed-scan tick removed. */
  function WithoutFailedScans<S>(events: seq<Event<S>>): (r: seq<Event<S>>)
    ensures |r| <= |events|
  {
    if |events| == 0 then []
    else if FailedScan(events[0]) then WithoutFailedScans(events[1..])
    else [events[0]] + WithoutFailedScans(events[1..])
  }

  /** Running the loop from position `from + j` of `events` is running it
      from position `j` of the events after `from`. */
  lemma {:induction false} LoopShift<S>(w: Updater, aggregate: S -> ZoneList, events: seq<Event<S>>, from: nat, j: nat)
    requires from <= |events|
    ensures Loop(w, aggregate, events, from + j) == Loop(w, aggregate, events[from..], j)
    decreases |events| - from - j
  {
    if from + j < |events| {
      assert events[from..][j] == events[from + j];
      match events[from + j]
      case Tick(scan, connect, rpc) =>
        if scan.ScanFailed? {
          LoopShift(w, aggregate, events, from, j + 1);
        } else {
          LoopShift(Update(w, aggregate(scan.resources), connect, rpc).0, aggregate, events, from, j + 1);
        }
      case CertChange(reconnect) =>
        LoopShift(Connect(Disconnect(w), reconnect).0, aggregate, events, from, j + 1);
      case StopSignal =>
        LoopShift(w, aggregate, events, from, j + 1);
      case StopRequested =>
        LoopShift(Stop(w), aggregate, events, from, j + 1);
    }
  }

  /** Removing the failed-scan ticks from the events changes neither the
      final state nor how Run ends. */
  lemma {:induction false} LoopIgnoresFailedScans<S>(w: Updater, aggregate: S -> ZoneList, events: seq<Event<S>>)
    ensures Loop(w, aggregate, events, 0) == Loop(w, aggregate, WithoutFailedScans(events), 0)
    decreases |events|
  {
    if |events| > 0 {
      var rest := events[1..];
      var f := WithoutFailedScans(events);
      if FailedScan(events[0]) {
        LoopShift(w, aggregate, events, 1, 0);
        LoopIgnoresFailedScans(w, aggregate, rest);
      } else {
        assert f[0] == events[0] && f[1..] == WithoutFailedScans(rest);
        match events[0]
        case Tick(scan, connect, rpc) =>
          var u := Update(w, aggregate(scan.resources), connect, rpc).0;
          LoopShift(u, aggregate, events, 1, 0);
          LoopShift(u, aggregate, f, 1, 0);
          LoopIgnoresFailedScans(u, aggregate, rest);
        case CertChange(reconnect) =>
          var u := Connect(Disconnect(w), reconnect).0;
          LoopShift(u, aggregate, events, 1, 0);
          LoopShift(u, aggregate, f, 1, 0);
          LoopIgnoresFailedScans(u, aggregate, rest);
        case StopSignal =>
          LoopShift(w, aggregate, events, 1, 0);
          LoopShift(w, aggregate, f, 1, 0);
          LoopIgnoresFailedScans(w, aggregate, rest);
        case StopRequested =>
          LoopShift(Stop(w), aggregate, events, 1, 0);
          LoopShift(Stop(w), aggregate, f, 1, 0);
          LoopIgnoresFailedScans(Stop(w), aggregate, rest);
      }
    }
  }

  /** A run of failed-scan ticks is passed over without any effect. */
  lemma {:induction false} LoopSkipsFailedScans<S>(w: Updater, aggregate: S -> ZoneList, events: seq<Event<S>>,
                                                   from: nat, until: nat)
    requires from <= until <= |events|
    requires forall j :: from <= j < until ==> FailedScan(events[j])
    ensures Loop(w, aggregate, events, from) == Loop(w, aggregate, events, until)
    decreases until - from
  {
    if from < until {
      LoopSkipsFailedScans(w, aggregate, events, from + 1, until);
    }
  }

  /** A one-shot updater does not stop at the first scan: any number of
      failed scans are skipped, and Run returns nil right after the first
      successful Update, having advertised exactly once. */
  lemma OneshotSkipsFailedScans<S>(w: Updater, aggregate: S -> ZoneList, events: seq<Event<S>>, n: nat)
    requires Valid(w) && w.args.oneshot && !w.args.noPublish
    requires n < |events| && forall j :: 0 <= j < n ==> FailedScan(events[j])
    requires events[n].Tick? && events[n].scan.Scanned? && events[n].connect.Ok? && events[n].rpc.Ok?
    ensures Loop(w, aggregate, events, 0).1 == Returned(Ok)
    ensures Advertisements(Loop(w, aggregate, events, 0).0.calls) == Advertisements(w.calls) + 1
  {
    LoopSkipsFailedScans(w, aggregate, events, 0, n);
    UpdateOutcome(w, aggregate(events[n].scan.resources), events[n].connect, events[n].rpc);
  }

  // ---------------------------------------------------------------------
  // The whole loop

  /** The loop keeps the state valid and the call log well formed: every
      advertisement is made on a connection opened just before it and closed
      just after it, and names this node and its policy. The immutable
      settings and the configuration never change. */
  lemma {:induction false} LoopPreserves<S>(w: Updater, aggregate: S -> ZoneList, events: seq<Event<S>>, from: nat)
    requires Valid(w) && WellFormedLog(w)
    ensures var u := Loop(w, aggregate, events, from).0;
      Valid(u) && WellFormedLog(u) &&
      u.args == w.args && u.tmPolicy == w.tmPolicy && u.nodeName == w.nodeName &&
      u.nfdVersion == w.nfdVersion && u.configFilePath == w.configFilePath && u.config == w.config
    decreases |events| - from
  {
    if from < |events| {
      match events[from]
      case Tick(scan, connect, rpc) =>
        if scan.Scanned? {
          UpdatePreserves(w, aggregate(scan.resources), connect, rpc);
          var u := Update(w, aggregate(scan.resources), connect, rpc).0;
          LoopPreserves(u, aggregate, events, from + 1);
        } else {
          LoopPreserves(w, aggregate, events, from + 1);
        }
      case CertChange(reconnect) =>
        ReconnectPreserves(w, reconnect);
        LoopPreserves(Connect(Disconnect(w), reconnect).0, aggregate, events, from + 1);
      case StopSignal =>
        LoopPreserves(w, aggregate, events, from + 1);
      case StopRequested =>
        StopPreserves(w);
        LoopPreserves(Stop(w), aggregate, events, from + 1);
    }
  }

  /** Dry-run never advertises, and the stub stays unset whatever happens. */
  lemma {:induction false} LoopDryRunNeverAdvertises<S>(w: Updater, aggregate: S -> ZoneList, events: seq<Event<S>>, from: nat)
    requires Valid(w) && w.args.noPublish
    ensures Advertisements(Loop(w, aggregate, events, from).0.calls) == Advertisements(w.calls)
    ensures Loop(w, aggregate, events, from).0.client == None
    decreases |events| - from
  {
    if from < |events| {
      match events[from]
      case Tick(scan, connect, rpc) =>
        if scan.Scanned? {
          var u := Update(w, aggregate(scan.resources), connect, rpc).0;
          assert u == Disconnect(w);
          DryRunStep(w);
          LoopDryRunNeverAdvertises(u, aggregate, events, from + 1);
        } else {
          LoopDryRunNeverAdvertises(w, aggregate, events, from + 1);
        }
      case CertChange(reconnect) =>
        var u := Connect(Disconnect(w), reconnect).0;
        assert u == Disconnect(w);
        DryRunStep(w);
        LoopDryRunNeverAdvertises(u, aggregate, events, from + 1);
      case StopSignal =>
        LoopDryRunNeverAdvertises(w, aggregate, events, from + 1);
      case StopRequested =>
        StopPreserves(w);
        LoopDryRunNeverAdvertises(Stop(w), aggregate, events, from + 1);
    }
  }

  /** In dry-run mode both Update and a reconnect come down to Disconnect,
      which adds no advertisement. */
  lemma DryRunStep(w: Updater)
    requires Valid(w) && w.args.noPublish
    ensures Valid(Disconnect(w)) && Advertisements(Disconnect(w).calls) == Advertisements(w.calls)
  {
    AdvertisementsAppend(w.calls, [BaseDisconnect]);
    assert [BaseDisconnect][..0] == [];
  }

  /** A one-shot updater advertises at most once before the loop ends. */
  lemma {:induction false} LoopOneshotAdvertisesAtMostOnce<S>(w: Updater, aggregate: S -> ZoneList, events: seq<Event<S>>, from: nat)
    requires Valid(w) && w.args.oneshot
    ensures Advertisements(Loop(w, aggregate, events, from).0.calls) <= Advertisements(w.calls) + 1
    decreases |events| - from
  {
    if from < |events| {
      match events[from]
      case Tick(scan, connect, rpc) =>
        if scan.Scanned? {
          UpdateOutcome(w, aggregate(scan.resources), connect, rpc);
        } else {
          LoopOneshotAdvertisesAtMostOnce(w, aggregate, events, from + 1);
        }
      case CertChange(reconnect) =>
        var u := Connect(Disconnect(w), reconnect).0;
        var added := if w.args.noPublish then [BaseDisconnect] else [BaseDisconnect, BaseConnect];
        assert u.calls == w.calls + added;
        AdvertisementsAppend(w.calls, added);
        assert [BaseDisconnect][..0] == [] && [BaseDisconnect, BaseConnect][..1] == [BaseDisconnect];
        assert Valid(u);
        LoopOneshotAdvertisesAtMostOnce(u, aggregate, events, from + 1);
      case StopSignal =>
        LoopOneshotAdvertisesAtMostOnce(w, aggregate, events, from + 1);
      case StopRequested =>
        StopPreserves(w);
        LoopOneshotAdvertisesAtMostOnce(Stop(w), aggregate, events, from + 1);
    }
  }

  /** A stop that is received ends the loop: when a stop signal lies ahead
      and the stop channel holds a value by then (it does now, or a Stop
      call comes first), the loop returns. It is still running only when no
      stop was ever received. */
  predicate StopReceivable<S>(w: Updater, events: seq<Event<S>>, from: nat)
  {
    exists k :: from <= k < |events| && events[k].StopSignal? &&
      (w.stop > 0 || exists j :: from <= j < k && events[j].StopRequested?)
  }

  lemma {:induction false} LoopStopEnds<S>(w: Updater, aggregate: S -> ZoneList, events: seq<Event<S>>, from: nat)
    requires Valid(w) && StopReceivable(w, events, from)
    ensures Loop(w, aggregate, events, from).1.Returned?
    decreases |events| - from
  {
    var k :| from <= k < |events| && events[k].StopSignal? &&
      (w.stop > 0 || exists j :: from <= j < k && events[j].StopRequested?);
    match events[from]
    case Tick(scan, connect, rpc) =>
      if scan.Scanned? {
        UpdatePreservesStop(w, aggregate(scan.resources), connect, rpc);
        var (u, err) := Update(w, aggregate(scan.resources), connect, rpc);
        if err.Ok? && !w.args.oneshot {
          assert k != from;
          assert StopReceivable(u, events, from + 1);
          LoopStopEnds(u, aggregate, events, from + 1);
        }
      } else {
        assert k != from;
        assert StopReceivable(w, events, from + 1);
        LoopStopEnds(w, aggregate, events, from + 1);
      }
    case CertChange(reconnect) =>
      var (u, err) := Connect(Disconnect(w), reconnect);
      if err.Ok? {
        assert k != from;
        assert u.stop == w.stop && Valid(u);
        assert StopReceivable(u, events, from + 1);
        LoopStopEnds(u, aggregate, events, from + 1);
      }
    case StopSignal =>
      if w.stop == 0 {
        assert k != from;
        assert StopReceivable(w, events, from + 1);
        LoopStopEnds(w, aggregate, events, from + 1);
      }
    case StopRequested =>
      StopPreserves(w);
      assert k != from;
      assert StopReceivable(Stop(w), events, from + 1);
      LoopStopEnds(Stop(w), aggregate, events, from + 1);
  }

  /** Update does not touch the stop channel. */
  lemma UpdatePreservesStop(w: Updater, zones: ZoneList, connect: Outcome, rpc: Outcome)
    requires Valid(w)
    ensures Valid(Update(w, zones, connect, rpc).0) && Update(w, zones, connect, rpc).0.stop == w.stop
  {
  }

  /** The error that ends the loop is always one of its events' own: a
      connect or RPC error of a scan tick, wrapped by Update, or the raw
      error of a failed reconnect. A failed scan never ends the loop. */
  predicate ErrorFrom<S>(e: Event<S>, err: Error)
  {
    match e
    case Tick(scan, connect, rpc) =>
      scan.Scanned? &&
      ((connect.Fail? && err == Wrapped(ConnectFailedContext, connect.error)) ||
       (rpc.Fail? && err == Wrapped(AdvertiseFailedContext, rpc.error)))
    case CertChange(reconnect) => reconnect == Fail(err)
    case StopSignal => false
    case StopRequested => false
  }

  lemma {:induction false} LoopErrorOrigin<S>(w: Updater, aggregate: S -> ZoneList, events: seq<Event<S>>, from: nat)
    requires Valid(w)
    ensures var r := Loop(w, aggregate, events, from).1;
      r.Returned? && r.result.Fail? ==>
        exists k :: from <= k < |events| && ErrorFrom(events[k], r.result.error)
    decreases |events| - from
  {
    if from < |events| {
      match events[from]
      case Tick(scan, connect, rpc) =>
        if scan.Scanned? {
          UpdateOutcome(w, aggregate(scan.resources), connect, rpc);
          UpdatePreservesStop(w, aggregate(scan.resources), connect, rpc);
          var (u, err) := Update(w, aggregate(scan.resources), connect, rpc);
          if err.Fail? {
            assert ErrorFrom(events[from], err.error);
          } else if !w.args.oneshot {
            LoopErrorOrigin(u, aggregate, events, from + 1);
          }
        } else {
          LoopErrorOrigin(w, aggregate, events, from + 1);
        }
      case CertChange(reconnect) =>
        var (u, err) := Connect(Disconnect(w), reconnect);
        if err.Fail? {
          assert ErrorFrom(events[from], err.error);
        } else {
          assert Valid(u);
          LoopErrorOrigin(u, aggregate, events, from + 1);
        }
      case StopSignal =>
        LoopErrorOrigin(w, aggregate, events, from + 1);
      case StopRequested =>
        StopPreserves(w);
        LoopErrorOrigin(Stop(w), aggregate, events, from + 1);
    }
  }

  // ---------------------------------------------------------------------
  // Run

  /** A set-up step that fails ends Run with an error before the loop,
      without any call to nfd-master. The kubeconfig is only consulted when
      publishing. */
  predicate SetupFails(w: Updater, setup: Setup, unmarshal: seq<bv8> -> Parsed)
  {
    setup.podResClient.Fail? || (!w.args.noPublish && setup.kubeconfig.Fail?) ||
    Configure(w, setup.configFile, unmarshal).1.Fail? ||
    setup.scanner.Fail? || setup.aggregator.Fail? || setup.certWatch.Fail?
  }

  lemma RunSetupFailure<S>(w: Updater, setup: Setup, unmarshal: seq<bv8> -> Parsed, aggregate: S -> ZoneList,
                           events: seq<Event<S>>)
    requires SetupFails(w, setup, unmarshal)
    ensures var (u, r) := Run(w, setup, unmarshal, aggregate, events);
      r.Returned? && r.result.Fail? && u.calls == w.calls && u.client == w.client
  {
  }

  /** When every set-up step succeeds, Run is the loop over all events from
      the configured state. */
  lemma RunStartsLoop<S>(w: Updater, setup: Setup, unmarshal: seq<bv8> -> Parsed, aggregate: S -> ZoneList,
                         events: seq<Event<S>>)
    requires !SetupFails(w, setup, unmarshal)
    ensures Run(w, setup, unmarshal, aggregate, events) ==
      Loop(Configure(w, setup.configFile, unmarshal).0, aggregate, events, 0)
  {
  }

  /** In dry-run mode the kubeconfig result makes no difference to Run. */
  lemma RunDryRunIgnoresKubeconfig<S>(w: Updater, setup: Setup, kubeconfig: Outcome, unmarshal: seq<bv8> -> Parsed,
                                      aggregate: S -> ZoneList, events: seq<Event<S>>)
    requires w.args.noPublish
    ensures Run(w, setup, unmarshal, aggregate, events) ==
      Run(w, setup.(kubeconfig := kubeconfig), unmarshal, aggregate, events)
  {
  }

  /** A freshly created updater is valid and has made no call; Run keeps it
      valid and well formed, and in dry-run mode never advertises. */
  lemma {:induction false} RunFromNew<S>(args: Args, policy: string, nodeName: string, nfdVersion: string,
                                         setup: Setup, unmarshal: seq<bv8> -> Parsed, aggregate: S -> ZoneList,
                                         events: seq<Event<S>>)
    ensures var (u, _) := Run(New(args, policy, nodeName, nfdVersion), setup, unmarshal, aggregate, events);
      Valid(u) && WellFormedLog(u) && (args.noPublish ==> Advertisements(u.calls) == 0)
  {
    var w := New(args, policy, nodeName, nfdVersion);
    if !SetupFails(w, setup, unmarshal) {
      var c := Configure(w, setup.configFile, unmarshal).0;
      assert c.calls == [] && c.(config := w.config) == w;
      LoopPreserves(c, aggregate, events, 0);
      if args.noPublish {
        LoopDryRunNeverAdvertises(c, aggregate, events, 0);
      }
    }
  }
}
