# Roaming visualiser data server, modelled in Dafny

The data server tracks one Wi-Fi client. It polls the access point's
`/api/devices` endpoint, picks out the device whose role is `client`, and
collects the id of the access point serving it (`servedBy`) in a window. It
also keeps cumulative downlink and uplink packet losses, built from the raw
drop and loss counters the client reports. Every aggregation tick resolves the
window to its most common access point. A change from the previously resolved
one counts as a roaming event. The tick then publishes a snapshot to the
subscribers and empties the window. The snapshot holds the display label, the
roaming count, the uptime text and both losses. A subscriber may send
`{"command": "reset"}` to restart the uptime clock and zero the roaming count
and the losses.

The project has these modules:

- `Wrappers`: the `Option` type.
- `Uptime`: `format_uptime`, with a parser for the text it produces, so that
  the text can be shown to encode whole days, hours and minutes.
- `DisplayNames`: `map_display_name`.
- `Telemetry`: the decoded device list and the choice of the client in it.
- `WindowVote`: `Counter(samples).most_common(1)`. It has a specification
  function `Majority` and a counting method `MostCommon` proved equal to it.
- `Metrics`: the shared state as a value, one step function per kind of
  event (poll, aggregation tick, inbound message), `Run` over a history of
  events, and the lemmas about histories.
- `Server`: the class `MetricsServer`. Its fields are the program's
  module-level variables, and its methods are one pass of each task's loop
  body, each proved equal to the corresponding step of `Metrics`.

Time is a whole number of seconds, passed in as a parameter. Python's `//`
and `%` with a positive divisor round towards minus infinity, as Dafny's `/`
and `%` do, so the uptime decomposition is the program's for negative
elapsed times too.

Four behaviours of the program are easy to miss; the model keeps them:

- `last_aggregated_served_by` starts unset. The first non-empty window
  therefore counts as a roaming event even when the client never moves
  (`Metrics.FirstWindowCountsAsRoaming`).
- The gaps between the uptime groups are three no-break spaces, not
  ordinary spaces, so they keep their width when the text is displayed.
- A reset keeps `last_aggregated_served_by`. A window that resolves to the
  same access point after a reset counts no roaming event
  (`Metrics.ResetKeepsAccessPoint`). No spurious one is counted.
- Negative deltas of the raw counters are added, not clamped, so a counter
  that goes down lowers the cumulative loss (`Metrics.NegativeDeltaLowersLoss`).

## Model

| member | source | states |
|---|---|---|
| Uptime.Decompose | data_server.py:34-36 | hours are below 24, minutes below 60, and the duration covers the elapsed seconds to within one minute |
| Uptime.DecomposeUnique | data_server.py:34-36 | no other days/hours/minutes triple with hours below 24 and minutes below 60 is within a minute of the elapsed seconds |
| Uptime.DecomposeMinuteStart | data_server.py:34-36 | the decomposition is the start of the minute that the elapsed time falls in, so leftover seconds are dropped |
| Uptime.DecomposeSameMinute | data_server.py:34-36 | two elapsed times decompose alike exactly when they fall in the same minute |
| Uptime.FormatUptime | data_server.py:32-37 | the uptime text: each of days, hours and minutes as a decimal number, a no-break space and its unit, with three no-break spaces after "d" and after "h"; what it encodes is stated by UptimeRoundTrip |
| Uptime.IntToDecimal | data_server.py:37 | the decimal text of an integer, with a minus sign for negative ones; its reading is stated by IntDecimalRoundTrip |
| Uptime.NatToDecimal | data_server.py:37 | the number's text is non-empty, all digits, and has no leading zero |
| Uptime.NatDecimalRoundTrip | data_server.py:37 | reading the digits of a natural number gives the number back |
| Uptime.IntDecimalRoundTrip | data_server.py:37 | the text of any integer, a minus sign first for negative ones, reads back as that integer |
| Uptime.IntDecimalHasNoSpace | data_server.py:37 | the text of a number never contains the no-break space that separates it from its unit |
| Uptime.SplitAtFirstOf | data_server.py:37 | a text with a separator that does not occur before it splits back into its two parts |
| Uptime.GroupRoundTrip | data_server.py:37 | one "number, no-break space, unit" group reads back as its number, and the rest of the text is left over |
| Uptime.UptimeRoundTrip | data_server.py:32-37 | the uptime text reads back as exactly the days, hours and minutes of the elapsed time |
| Uptime.UptimeTextSameMinute | data_server.py:32-37 | two uptime texts are equal if and only if the elapsed times fall in the same minute |
| Uptime.UptimeExample | data_server.py:32-37 | 90061 seconds read as 1, d, 1, h, 1, min, with one no-break space before each unit and three after "d" and after "h"; the last second is dropped |
| DisplayNames.MapDisplayName | data_server.py:45-52 | AXX000004 is shown as "1. Obergeschoss" and AXX000003 as "3. Obergeschoss"; an id is shown unchanged if and only if it is neither of them |
| Telemetry.FindClient | data_server.py:78 | the result is the first device whose role is "client", and every device before it is an object without that role. There is no client if and only if all devices are such objects. The search raises only at a non-object that comes before any client |
| Telemetry.DownlinkRaw | data_server.py:94-97 | the raw downlink reading: dropped payloads plus lost packets, an absent counter read as 0 |
| Telemetry.UplinkRaw | data_server.py:98-101 | the raw uplink reading, read like the downlink one |
| Telemetry.UsableStatus | data_server.py:63-84 | a poll yields a connection status if and only if the body is a list, a client is found, and it has a connectionStatus object; the status is that client's |
| WindowVote.FirstIndex | data_server.py:127-128 | the index is where the id occurs in the window, and it does not occur before |
| WindowVote.MostCommonUnique | data_server.py:127-128 | a window has at most one most common id, with ties broken by first occurrence |
| WindowVote.Distinct | data_server.py:127 | the Counter's keys are exactly the ids in the window |
| WindowVote.DistinctInFirstSeenOrder | data_server.py:127 | the Counter's keys come in the order in which they first occur in the window |
| WindowVote.Leader | data_server.py:128 | the maximum over the Counter's items; what it picks is stated by LeaderIsFirstMaximum |
| WindowVote.LeaderIsFirstMaximum | data_server.py:128 | the candidate picked has the highest count, and every candidate before it has a lower count |
| WindowVote.Majority | data_server.py:127-128 | the resolved id occurs in the window, no id occurs more often, and an equally frequent id is not seen earlier |
| WindowVote.MajorityIsMostCommon | data_server.py:127-128 | the first candidate with the highest count, taken over the keys in first-seen order, is the most common id |
| WindowVote.Tally | data_server.py:127 | the Counter as a map from id to count; its contents are stated by TallyCounts |
| WindowVote.TallyCounts | data_server.py:127 | the tally's keys are the window's ids, and each maps to how often it occurs |
| WindowVote.CountWindow | data_server.py:127 | counting the window in one pass gives each id its number of occurrences and lists the keys in first-seen order |
| WindowVote.MostCommon | data_server.py:127-128 | the counting method returns the most common id, ties broken by first occurrence, which is the specification's `Majority` |
| WindowVote.MajorityExamples | data_server.py:127-128 | A, A, B, A resolves to A, and the tie A, B resolves to A, the id seen first |
| Metrics.Init | data_server.py:16-29 | the start-up state: the clock at start, no roaming event, no last aggregated id, zero losses and raw readings, an empty window |
| Metrics.ApplyPoll | data_server.py:77-109 | an unusable poll changes nothing. Otherwise, a present servedBy is appended to the window, the current raw readings become the last ones, the new raw readings are the sums of the two counters (absent counts as 0), each cumulative loss moves by the difference of the raw readings, and nothing else changes |
| Metrics.BuildSnapshot | data_server.py:136-145 | the snapshot's uptime text reads back as the days, hours and minutes since the start time |
| Metrics.Aggregate | data_server.py:122-150 | an empty window changes and publishes nothing. Otherwise, the last aggregated id becomes the window's most common id. The roaming count rises by one exactly when that id differs from the previous one. The window is emptied, nothing else changes, and a snapshot of the updated counters is published |
| Metrics.AggregatePublishes | data_server.py:129-145 | a non-empty window publishes the display label of the resolved id, the updated roaming count, both cumulative losses, and an uptime text that reads back as the time since the start |
| Metrics.HandleMessage | data_server.py:159-168 | a reset restarts the clock at the current time and zeroes the roaming count and both losses, keeping everything else; any other message changes nothing |
| Metrics.LossesFollowRawReadings | data_server.py:91-107 | between resets, the difference between each cumulative loss and the latest raw reading stays as it was |
| Metrics.CumulativeLossIsLatestReading | data_server.py:20-26 | with no reset since start-up, each cumulative loss equals the latest raw reading |
| Metrics.NegativeDeltaLowersLoss | data_server.py:103-107 | a raw reading below the previous one lowers the cumulative loss |
| Metrics.PollsFillWindow | data_server.py:85-88 | a run of polls appends exactly the servedBy ids they carried, in order, and leaves the roaming state alone |
| Metrics.RoamingCountsTransitions | data_server.py:131-134 | between resets, the roaming count grows by the number of changes in the sequence of resolved ids, counted from the last aggregated one, which ends as the latest resolved id |
| Metrics.SteadyAccessPointNoRoaming | data_server.py:131-134 | while every sample is the last aggregated access point, the roaming count does not change |
| Metrics.TransitionsSplit | data_server.py:131-134 | changes over two stretches add up, with the second stretch counted from where the first ended |
| Metrics.StretchTransitions | data_server.py:131-134 | a stretch of one id counts one change if it differs from where it starts, and none otherwise |
| Metrics.ThereAndBackCountsTwice | data_server.py:131-134 | resolving to A, then B, then A, however long each stretch lasts, counts exactly two roaming events from A |
| Metrics.NothingResolvedYet | data_server.py:17-18 | until a window is resolved, whatever polls, empty ticks and messages come, the roaming count stays 0 and there is no last aggregated id |
| Metrics.FirstWindowCountsAsRoaming | data_server.py:131-134 | after start-up and any history in which no window was resolved yet, the first non-empty window makes the roaming count 1 |
| Metrics.PollsAfterReset | data_server.py:160-168 | after a reset and the polls that follow it, the clock runs from the reset, the roaming count is 0, and each cumulative loss is how far its raw reading moved since the reset |
| Metrics.ResetRestartsCounters | data_server.py:160-168 | after a reset and the polls that follow it, the next snapshot reports as losses how far the raw readings moved since the reset (zero with no poll between) and at most one roaming event |
| Metrics.ResetRestartsUptime | data_server.py:160-168 | after a reset and the polls that follow it, the next snapshot's uptime reads back as the days, hours and minutes since the reset |
| Metrics.ResetKeepsAccessPoint | data_server.py:160-168 | after a reset, a window of the last aggregated access point counts no roaming event |
| Server.MetricsServer.constructor | data_server.py:16-29 | the fields start as the initial state, with the cumulative losses equal to the raw readings |
| Server.MetricsServer.PollApiDevices | data_server.py:55-113 | one poll changes the fields as `ApplyPoll` does and keeps each loss's offset from its raw reading |
| Server.MetricsServer.AggregateAndBroadcast | data_server.py:116-150 | one tick changes the fields and returns the snapshot as `Aggregate` does |
| Server.MetricsServer.HandleInbound | data_server.py:153-170 | a reset sets the clock and zeroes the counters as `HandleMessage` does; any other message leaves every field unchanged |

## Left out

- Fetching the device list over HTTP and decoding JSON are not modelled. A
  poll's outcome is given as a decoded `PollResponse`. A failed request, a
  body that is not JSON, and a body that is not a list all leave the state
  unchanged.
- Loss counters that are `null` or not numbers are not modelled. The
  program raises part-way through the update when it meets one: the sample
  has already been appended and both raw baselines have moved. When an uplink
  counter raises, the downlink raw reading has also been replaced but the
  downlink total not updated, so that poll's downlink delta is lost and the
  total no longer equals the latest raw reading. Float and boolean counters
  are added as numbers (`True` counts as 1) and are not modelled either. The
  model reads a counter as an integer or as absent.
- A `servedBy` that is not a string is not modelled. The program appends it
  as it is.
- A `role` that is not a string is read as a role other than "client".
- Subscriber connections, the set of connected clients and the broadcast
  fan-out with `asyncio.gather` are not modelled. An aggregation returns the
  snapshot it would broadcast.
- Serialising the snapshot with `json.dumps` is not modelled; `Snapshot`
  holds its fields.
- The tasks, their sleeps, `main` and the logging are not modelled. Each
  method is one pass of a loop body.
- The interleaving of the tasks is not modelled. The program awaits the
  broadcast before it clears the window, so samples that arrive during a
  broadcast are dropped. The model treats an aggregation as one step.
- Floating-point time from `time.time()` is not modelled. Time is a whole
  number of seconds, and `int()` of a float quotient is the integer quotient.
- script.js, the browser side that displays the snapshots, is not part of
  this model.
