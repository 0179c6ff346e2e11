/** Values exchanged by the topology updater: errors, zones and the
    NodeTopologyRequest that is sent to nfd-master. */
module Topology {

  datatype Option<+T> = None | Some(value: T)

  /** An error as Go's `error` carries it. Errors raised by code outside
      this model (the base client, gRPC, the filesystem, the YAML parser)
      are `External`; `fmt.Errorf` with `%w` becomes one of the wrapping
      constructors, so the originating error stays reachable. */
  datatype Error =
    | External(origin: string)
      // fmt.Errorf("<context>: %w", cause)
    | Wrapped(context: string, cause: Error)
      // fmt.Errorf("<context> %q: %w", path, cause)
    | WrappedFile(context: string, path: string, cause: Error)

  /** The result of a Go call that returns only `error`: nil, or an error. */
  datatype Outcome = Ok | Fail(error: Error)

  /** Capacity record of one resource kind inside a zone: what is allocatable
      and what workloads have claimed of it. */
  datatype ResourceInfo = ResourceInfo(allocatable: nat, claimed: nat)

  /** One topology zone, with the five fields the request builder copies. */
  datatype Zone = Zone(
    name: string,
    zoneType: string,
    parent: string,
    resources: map<string, ResourceInfo>,
    costs: map<string, nat>)

  type ZoneList = seq<Zone>

  /** The request message of the UpdateNodeTopology RPC. */
  datatype NodeTopologyRequest = NodeTopologyRequest(
    zones: seq<Zone>,
    nfdVersion: string,
    nodeName: string,
    topologyPolicies: seq<string>)

  /** The typed gRPC stub; only whether it is set matters to the updater. */
  datatype ClientStub = NodeTopologyClient

  /** The zone built from `z` field by field. */
  function CopyZone(z: Zone): Zone
  {
    Zone(z.name, z.zoneType, z.parent, z.resources, z.costs)
  }

  predicate SameZoneFields(a: Zone, b: Zone)
  {
    a.name == b.name && a.zoneType == b.zoneType && a.parent == b.parent &&
    a.resources == b.resources && a.costs == b.costs
  }

  /** The request advertiseNodeTopology sends for `zoneInfo`. */
  function TopologyRequest(zoneInfo: ZoneList, tmPolicy: string, nodeName: string, nfdVersion: string): NodeTopologyRequest
  {
    NodeTopologyRequest(
      seq(|zoneInfo|, i requires 0 <= i < |zoneInfo| => CopyZone(zoneInfo[i])),
      nfdVersion, nodeName, [tmPolicy])
  }

  /** The request carries every input zone, in order and unchanged, the node
      name, and the topology-manager policy as its only policy. */
  lemma TopologyRequestFaithful(zoneInfo: ZoneList, tmPolicy: string, nodeName: string, nfdVersion: string)
    ensures var r := TopologyRequest(zoneInfo, tmPolicy, nodeName, nfdVersion);
      |r.zones| == |zoneInfo| &&
      (forall i :: 0 <= i < |zoneInfo| ==> SameZoneFields(r.zones[i], zoneInfo[i])) &&
      r.nodeName == nodeName && r.nfdVersion == nfdVersion && r.topologyPolicies == [tmPolicy]
  {
  }

  /** advertiseNodeTopology: copies the zones into a fresh slice by index,
      wraps them into a request and makes one UpdateNodeTopology call on
      `client`. `rpc` is that call's reply (an expired 10-second deadline
      is a failure like any other); the request is returned so that the
      caller can record the call it made. */
  method AdvertiseNodeTopology(client: ClientStub, zoneInfo: ZoneList, tmPolicy: string, nodeName: string,
                               nfdVersion: string, rpc: Outcome)
    returns (req: NodeTopologyRequest, err: Outcome)
    ensures |req.zones| == |zoneInfo|
    ensures forall i :: 0 <= i < |zoneInfo| ==> SameZoneFields(req.zones[i], zoneInfo[i])
    ensures req.nodeName == nodeName && req.nfdVersion == nfdVersion
    ensures req.topologyPolicies == [tmPolicy]
    ensures req == TopologyRequest(zoneInfo, tmPolicy, nodeName, nfdVersion)
    ensures err == rpc
  {
    var zones := new Zone[|zoneInfo|];
    for i := 0 to |zoneInfo|
      invariant forall k :: 0 <= k < i ==> zones[k] == CopyZone(zoneInfo[k])
    {
      zones[i] := CopyZone(zoneInfo[i]);
    }
    req := NodeTopologyRequest(zones[..], nfdVersion, nodeName, [tmPolicy]);
    err := rpc;
  }
}
