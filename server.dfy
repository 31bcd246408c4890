/**
 * The data server's shared state as the program keeps it: module-level
 * variables that the polling task, the aggregation task and the subscriber
 * handler update in place. Each method is one pass of the corresponding
 * loop body, and its result is stated through the value model in `Metrics`.
 */
module Server {
  import opened Wrappers
  import opened Telemetry
  import opened WindowVote
  import opened Uptime
  import opened DisplayNames
  import opened Metrics

  class MetricsServer {
    var startTime: int
    var roamingEvents: nat
    var lastAggregatedServedBy: Option<string>
    var packetLossesDl: int
    var packetLossesUl: int
    var packetLossesDlLastPoll: int
    var packetLossesDlCurrentPoll: int
    var packetLossesUlLastPoll: int
    var packetLossesUlCurrentPoll: int
    var servedBySamples: seq<string>

    /** The state as a value. */
    function Model(): State
      reads this
    {
      State(startTime, roamingEvents, lastAggregatedServedBy, packetLossesDl, packetLossesUl,
            packetLossesDlLastPoll, packetLossesDlCurrentPoll,
            packetLossesUlLastPoll, packetLossesUlCurrentPoll, servedBySamples)
    }

    /** The state at start-up, at time `now`. */
    constructor (now: int)
      ensures Model() == Init(now)
      ensures packetLossesDl == packetLossesDlCurrentPoll && packetLossesUl == packetLossesUlCurrentPoll
    {
      startTime := now;
      roamingEvents := 0;
      lastAggregatedServedBy := None;
      packetLossesDl, packetLossesUl := 0, 0;
      packetLossesDlLastPoll, packetLossesDlCurrentPoll := 0, 0;
      packetLossesUlLastPoll, packetLossesUlCurrentPoll := 0, 0;
      servedBySamples := [];
    }

    /** Processes the outcome of one request to the device endpoint. */
    method PollApiDevices(response: PollResponse)
      modifies this
      ensures Model() == ApplyPoll(old(Model()), response)
      ensures packetLossesDl - packetLossesDlCurrentPoll == old(packetLossesDl - packetLossesDlCurrentPoll)
      ensures packetLossesUl - packetLossesUlCurrentPoll == old(packetLossesUl - packetLossesUlCurrentPoll)
    {
      ghost var before := Model();
      if response.DeviceList? {
        var client := FindClient(response.devices);
        if client.Client? && client.status.Status? {
          var status := client.status.status;
          assert UsableStatus(response) == Some(status);
          if status.servedBy.Some? {
            servedBySamples := servedBySamples + [status.servedBy.value];
          }
          packetLossesDlLastPoll := packetLossesDlCurrentPoll;
          packetLossesUlLastPoll := packetLossesUlCurrentPoll;
          packetLossesDlCurrentPoll := DownlinkRaw(status);
          packetLossesUlCurrentPoll := UplinkRaw(status);
          var dlDiff := packetLossesDlCurrentPoll - packetLossesDlLastPoll;
          var ulDiff := packetLossesUlCurrentPoll - packetLossesUlLastPoll;
          packetLossesDl := packetLossesDl + dlDiff;
          packetLossesUl := packetLossesUl + ulDiff;
        }
      }
      assert Model() == ApplyPoll(before, response);
    }

    /**
     * One aggregation tick at time `now`: resolves the window, counts a
     * roaming event on a change, returns the snapshot to broadcast (none for
     * an empty window) and empties the window.
     */
    method AggregateAndBroadcast(now: int) returns (published: Option<Snapshot>)
      modifies this
      ensures (Model(), published) == Aggregate(old(Model()), now)
    {
      ghost var before := Model();
      if servedBySamples == [] {
        published := None;
      } else {
        var aggregated := MostCommon(servedBySamples);
        if Some(aggregated) != lastAggregatedServedBy {
          roamingEvents := roamingEvents + 1;
          lastAggregatedServedBy := Some(aggregated);
        }
        published := Some(BuildSnapshot(Model(), aggregated, now));
        servedBySamples := [];
      }
      assert Model() == Aggregate(before, now).0;
    }

    /** Handles one text message from a subscriber, received at time `now`. */
    method HandleInbound(message: Inbound, now: int)
      modifies this
      ensures Model() == HandleMessage(old(Model()), message, now)
      ensures IsReset(message) ==>
        startTime == now && roamingEvents == 0 && packetLossesDl == 0 && packetLossesUl == 0
      ensures !IsReset(message) ==> unchanged(this)
    {
      if message.CommandObject? && message.command == Some("reset") {
        startTime := now;
        roamingEvents := 0;
        packetLossesDl := 0;
        packetLossesUl := 0;
      }
    }
  }
}
