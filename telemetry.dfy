/**
 * The device list returned by the access point's `/api/devices` endpoint,
 * already decoded from JSON, and the choice of the tracked client in it.
 */
module Telemetry {
  import opened Wrappers

  /**
   * The `connectionStatus` object of a device. `servedBy` is an access-point
   * id, `None` when absent or `null`. A loss counter is an integer, `None`
   * when absent; a `null` counter is not part of this model.
   */
  datatype ConnectionStatus = ConnectionStatus(
    servedBy: Option<string>,
    downlinkPayloadDropCount: Option<int>,
    downlinkLossCount: Option<int>,
    uplinkPayloadDropCount: Option<int>,
    uplinkLossCount: Option<int>)

  /** The `connectionStatus` key of a device: missing, holding something other than an object, or an object. */
  datatype StatusField = NoStatus | StatusNotObject | Status(status: ConnectionStatus)

  /**
   * One entry of the device list: a JSON object with its `role` (`None` when
   * absent or not a string) and its `connectionStatus`, or some other JSON value.
   */
  datatype Device = DeviceObject(role: Option<string>, connectionStatus: StatusField) | NotAnObject

  /** The outcome of one request to the endpoint. */
  datatype PollResponse =
    | DeviceList(devices: seq<Device>)   // the body is a JSON array
    | OtherJson                          // the body is JSON, but not an array
    | Unparseable                        // the body is not JSON
    | RequestFailed                      // the request itself failed

  /**
   * Looking for the client: found at an index, absent, or interrupted because
   * an entry before any client is not an object (asking it for its role raises).
   */
  datatype ClientLookup = Client(index: nat, status: StatusField) | NoClient | LookupRaised

  predicate IsClient(d: Device)
  {
    d.DeviceObject? && d.role == Some("client")
  }

  /** The first `n` entries are objects whose role is not "client". */
  ghost predicate NoClientBefore(devices: seq<Device>, n: nat)
    requires n <= |devices|
  {
    forall j :: 0 <= j < n ==> devices[j].DeviceObject? && !IsClient(devices[j])
  }

  /** The first device whose role is "client", looked for in list order. */
  function FindClient(devices: seq<Device>): (r: ClientLookup)
    ensures r.Client? ==>
      r.index < |devices| && NoClientBefore(devices, r.index) &&
      devices[r.index] == DeviceObject(Some("client"), r.status)
    ensures r.NoClient? <==> NoClientBefore(devices, |devices|)
    ensures r.LookupRaised? ==>
      exists i :: 0 <= i < |devices| && NoClientBefore(devices, i) && devices[i] == NotAnObject
  {
    if devices == [] then NoClient
    else if devices[0].NotAnObject? then LookupRaised
    else if IsClient(devices[0]) then Client(0, devices[0].connectionStatus)
    else match FindClient(devices[1..])
      case Client(i, status) => Client(i + 1, status)
      case NoClient => NoClient
      case LookupRaised => LookupRaised
  }

  /**
   * The connection status a poll works with: present only when the body is a
   * list, a client is found in it and that client has a `connectionStatus`
   * object.
   */
  function UsableStatus(response: PollResponse): (r: Option<ConnectionStatus>)
    ensures r.Some? <==>
      response.DeviceList? && FindClient(response.devices).Client? &&
      FindClient(response.devices).status.Status?
    ensures r.Some? ==> r.value == FindClient(response.devices).status.status
  {
    match response
    case DeviceList(devices) =>
      (match FindClient(devices)
       case Client(_, Status(status)) => Some(status)
       case _ => None)
    case _ => None
  }

  /** The raw downlink loss reading: dropped payloads plus lost packets, absent counters read as 0. */
  function DownlinkRaw(status: ConnectionStatus): int
  {
    OrZero(status.downlinkPayloadDropCount) + OrZero(status.downlinkLossCount)
  }

  /** The raw uplink loss reading, read like the downlink one. */
  function UplinkRaw(status: ConnectionStatus): int
  {
    OrZero(status.uplinkPayloadDropCount) + OrZero(status.uplinkLossCount)
  }
}
