/**
 * The shared metrics state of the data server as a value, and the three
 * things that change it: a poll of the device list, an aggregation tick and
 * an inbound command. Each is a function from the old state to the new one;
 * `Run` strings them together so that properties of whole histories can be
 * stated.
 */
module Metrics {
  import opened Wrappers
  import opened Telemetry
  import opened WindowVote
  import opened Uptime
  import opened DisplayNames

  /**
   * The module-level state of the server. The raw loss readings of the last
   * and the current poll start at 0; the last aggregated access point starts
   * unset.
   */
  datatype State = State(
    startTime: int,
    roamingEvents: nat,
    lastAggregatedServedBy: Option<string>,
    packetLossesDl: int,
    packetLossesUl: int,
    dlLastPoll: int,
    dlCurrentPoll: int,
    ulLastPoll: int,
    ulCurrentPoll: int,
    servedBySamples: seq<string>)

  /** The message published after an aggregation. */
  datatype Snapshot = Snapshot(
    servedBy: string,
    roamingCount: nat,
    uptime: string,
    packetLossesDl: int,
    packetLossesUl: int)

  /**
   * A text message from a subscriber, decoded from JSON: an object with its
   * `command` member (`None` when absent or not a string), some other JSON
   * value, or text that is not JSON.
   */
  datatype Inbound = CommandObject(command: Option<string>) | OtherMessage | MalformedMessage

  predicate IsReset(message: Inbound)
  {
    message.CommandObject? && message.command == Some("reset")
  }

  /** The state when the server starts at time `now`. */
  function Init(now: int): State
  {
    State(now, 0, None, 0, 0, 0, 0, 0, 0, [])
  }

  /**
   * One poll of the device list. Unless the poll yields the client's
   * connection status, nothing changes. Otherwise its `servedBy`, when
   * present, joins the window, the current raw readings become the last ones,
   * the new raw readings are taken, and each cumulative loss moves by the
   * difference between the new and the previous raw reading, negative or not.
   */
  function ApplyPoll(s: State, response: PollResponse): (t: State)
    ensures UsableStatus(response).None? ==> t == s
    ensures UsableStatus(response).Some? ==>
      var status := UsableStatus(response).value;
      && t.servedBySamples ==
           s.servedBySamples + (if status.servedBy.Some? then [status.servedBy.value] else [])
      && t.dlLastPoll == s.dlCurrentPoll && t.dlCurrentPoll == DownlinkRaw(status)
      && t.ulLastPoll == s.ulCurrentPoll && t.ulCurrentPoll == UplinkRaw(status)
      && t.packetLossesDl - s.packetLossesDl == t.dlCurrentPoll - s.dlCurrentPoll
      && t.packetLossesUl - s.packetLossesUl == t.ulCurrentPoll - s.ulCurrentPoll
      && t.startTime == s.startTime
      && t.roamingEvents == s.roamingEvents
      && t.lastAggregatedServedBy == s.lastAggregatedServedBy
  {
    match UsableStatus(response)
    case None => s
    case Some(status) =>
      var samples :=
        if status.servedBy.Some? then s.servedBySamples + [status.servedBy.value] else s.servedBySamples;
      var dlCurrent := DownlinkRaw(status);
      var ulCurrent := UplinkRaw(status);
      s.(servedBySamples := samples,
         dlLastPoll := s.dlCurrentPoll, ulLastPoll := s.ulCurrentPoll,
         dlCurrentPoll := dlCurrent, ulCurrentPoll := ulCurrent,
         packetLossesDl := s.packetLossesDl + (dlCurrent - s.dlCurrentPoll),
         packetLossesUl := s.packetLossesUl + (ulCurrent - s.ulCurrentPoll))
  }

  /**
   * The snapshot of `s` at time `now` for the resolved access point: its
   * display label, the counters as they stand, and the uptime text, which
   * reads back as the whole days, hours and minutes since `startTime`.
   */
  function BuildSnapshot(s: State, resolved: string, now: int): (snap: Snapshot)
    ensures ParseUptime(snap.uptime) == Some(Decompose(now - s.startTime))
  {
    UptimeRoundTrip(now - s.startTime);
    Snapshot(MapDisplayName(resolved), s.roamingEvents, FormatUptime(now - s.startTime),
             s.packetLossesDl, s.packetLossesUl)
  }

  /**
   * One aggregation tick at time `now`. An empty window changes nothing and
   * publishes nothing. Otherwise the window's most common id becomes the last
   * aggregated one, the roaming count goes up by one exactly when that id
   * differs from the previous last one (an unset one included), a snapshot of
   * the updated counters is published and the window is emptied.
   */
  function Aggregate(s: State, now: int): (r: (State, Option<Snapshot>))
    ensures s.servedBySamples == [] ==> r == (s, None)
    ensures s.servedBySamples != [] ==>
      && r.0.lastAggregatedServedBy.Some?
      && IsMostCommon(s.servedBySamples, r.0.lastAggregatedServedBy.value)
      && r.0.roamingEvents ==
           s.roamingEvents + (if s.lastAggregatedServedBy == r.0.lastAggregatedServedBy then 0 else 1)
      && r.0 == s.(roamingEvents := r.0.roamingEvents,
                   lastAggregatedServedBy := r.0.lastAggregatedServedBy,
                   servedBySamples := [])
      && r.1 == Some(BuildSnapshot(r.0.(servedBySamples := s.servedBySamples),
                                   r.0.lastAggregatedServedBy.value, now))
  {
    if s.servedBySamples == [] then (s, None)
    else
      var aggregated := Majority(s.servedBySamples);
      var roamed := Some(aggregated) != s.lastAggregatedServedBy;
      var counted := s.(roamingEvents := if roamed then s.roamingEvents + 1 else s.roamingEvents,
                        lastAggregatedServedBy := Some(aggregated));
      (counted.(servedBySamples := []), Some(BuildSnapshot(counted, aggregated, now)))
  }

  /**
   * What a non-empty aggregation publishes: the display label of the resolved
   * access point, the roaming count after the update, the cumulative losses as
   * they stand, and an uptime text that reads back as the whole days, hours
   * and minutes since `startTime`.
   */
  lemma AggregatePublishes(s: State, now: int)
    requires s.servedBySamples != []
    ensures Aggregate(s, now).1.Some?
    ensures var (t, published) := Aggregate(s, now);
      && published.value.servedBy == MapDisplayName(t.lastAggregatedServedBy.value)
      && published.value.roamingCount == t.roamingEvents
      && published.value.packetLossesDl == s.packetLossesDl
      && published.value.packetLossesUl == s.packetLossesUl
      && ParseUptime(published.value.uptime) == Some(Decompose(now - s.startTime))
  {
    var t := Aggregate(s, now).0;
    var counted := t.(servedBySamples := s.servedBySamples);
    assert counted.startTime == s.startTime;
    assert Aggregate(s, now).1 == Some(BuildSnapshot(counted, t.lastAggregatedServedBy.value, now));
  }

  /**
   * An inbound message at time `now`. A reset restarts the uptime clock and
   * zeroes the roaming count and both cumulative losses, and keeps the last
   * aggregated access point, the raw readings and the window. Anything else
   * changes nothing.
   */
  function HandleMessage(s: State, message: Inbound, now: int): (t: State)
    ensures IsReset(message) ==>
      && t.startTime == now && t.roamingEvents == 0
      && t.packetLossesDl == 0 && t.packetLossesUl == 0
      && t.lastAggregatedServedBy == s.lastAggregatedServedBy
      && t.dlLastPoll == s.dlLastPoll && t.dlCurrentPoll == s.dlCurrentPoll
      && t.ulLastPoll == s.ulLastPoll && t.ulCurrentPoll == s.ulCurrentPoll
      && t.servedBySamples == s.servedBySamples
    ensures !IsReset(message) ==> t == s
  {
    if IsReset(message) then
      s.(startTime := now, roamingEvents := 0, packetLossesDl := 0, packetLossesUl := 0)
    else s
  }

  // Histories.

  datatype Event =
    | PollEvent(response: PollResponse)
    | AggregateTick(now: int)
    | MessageEvent(message: Inbound, now: int)

  function Step(s: State, e: Event): State
  {
    match e
    case PollEvent(response) => ApplyPoll(s, response)
    case AggregateTick(now) => Aggregate(s, now).0
    case MessageEvent(message, now) => HandleMessage(s, message, now)
  }

  function Run(s: State, events: seq<Event>): State
    decreases |events|
  {
    if events == [] then s else Run(Step(s, events[0]), events[1..])
  }

  /** The access points resolved by the non-empty aggregations of a history, in order. */
  function ResolvedIds(s: State, events: seq<Event>): seq<string>
    decreases |events|
  {
    if events == [] then []
    else
      var here := if events[0].AggregateTick? && s.servedBySamples != [] then [Majority(s.servedBySamples)] else [];
      here + ResolvedIds(Step(s, events[0]), events[1..])
  }

  predicate NoReset(events: seq<Event>)
  {
    forall i :: 0 <= i < |events| ==> !(events[i].MessageEvent? && IsReset(events[i].message))
  }

  /** How many times a sequence of resolved ids changes, starting from `last`. */
  function RoamingTransitions(last: Option<string>, ids: seq<string>): nat
    decreases |ids|
  {
    if ids == [] then 0
    else (if last == Some(ids[0]) then 0 else 1) + RoamingTransitions(Some(ids[0]), ids[1..])
  }

  function LastId(last: Option<string>, ids: seq<string>): Option<string>
  {
    if ids == [] then last else Some(ids[|ids| - 1])
  }

  /** The id one event adds to the window: the `servedBy` of a usable poll, when present. */
  function PolledId(e: Event): seq<string>
  {
    if e.PollEvent? && UsableStatus(e.response).Some? && UsableStatus(e.response).value.servedBy.Some?
    then [UsableStatus(e.response).value.servedBy.value]
    else []
  }

  /** The ids the polls of a history add to the window. */
  function PolledIds(events: seq<Event>): seq<string>
  {
    if events == [] then [] else PolledId(events[0]) + PolledIds(events[1..])
  }

  predicate OnlyPolls(events: seq<Event>)
  {
    forall i :: 0 <= i < |events| ==> events[i].PollEvent?
  }

  // Loss accounting.

  /**
   * Between resets, each cumulative loss and the latest raw reading move
   * together: their difference is what it was at the start of the history.
   */
  lemma {:induction false} LossesFollowRawReadings(s: State, events: seq<Event>)
    requires NoReset(events)
    ensures Run(s, events).packetLossesDl - Run(s, events).dlCurrentPoll == s.packetLossesDl - s.dlCurrentPoll
    ensures Run(s, events).packetLossesUl - Run(s, events).ulCurrentPoll == s.packetLossesUl - s.ulCurrentPoll
    decreases |events|
  {
    if events != [] {
      assert NoReset(events[1..]) by {
        forall i | 0 <= i < |events[1..]| ensures !(events[1..][i].MessageEvent? && IsReset(events[1..][i].message)) {
          assert events[1..][i] == events[i + 1];
        }
      }
      assert !(events[0].MessageEvent? && IsReset(events[0].message));
      LossesFollowRawReadings(Step(s, events[0]), events[1..]);
    }
  }

  /**
   * With no reset since the server started, each cumulative loss equals the
   * latest raw reading, because both the totals and the raw baselines start at 0.
   */
  lemma CumulativeLossIsLatestReading(now: int, events: seq<Event>)
    requires NoReset(events)
    ensures Run(Init(now), events).packetLossesDl == Run(Init(now), events).dlCurrentPoll
    ensures Run(Init(now), events).packetLossesUl == Run(Init(now), events).ulCurrentPoll
  {
    LossesFollowRawReadings(Init(now), events);
  }

  /** A raw reading below the previous one lowers the cumulative loss: deltas are not clamped. */
  lemma NegativeDeltaLowersLoss(s: State, response: PollResponse)
    requires UsableStatus(response).Some? && DownlinkRaw(UsableStatus(response).value) < s.dlCurrentPoll
    ensures ApplyPoll(s, response).packetLossesDl < s.packetLossesDl
  {
  }

  // The window.

  /** A run of polls appends exactly the ids the usable polls carried, in order. */
  lemma {:induction false} PollsFillWindow(s: State, events: seq<Event>)
    requires OnlyPolls(events)
    ensures Run(s, events).servedBySamples == s.servedBySamples + PolledIds(events)
    ensures Run(s, events).roamingEvents == s.roamingEvents
    ensures Run(s, events).lastAggregatedServedBy == s.lastAggregatedServedBy
    ensures Run(s, events).startTime == s.startTime
    decreases |events|
  {
    if events != [] {
      assert OnlyPolls(events[1..]) by {
        forall i | 0 <= i < |events[1..]| ensures events[1..][i].PollEvent? {
          assert events[1..][i] == events[i + 1];
        }
      }
      var t := ApplyPoll(s, events[0].response);
      assert Run(s, events) == Run(t, events[1..]);
      assert t.servedBySamples == s.servedBySamples + PolledId(events[0]);
      assert t.roamingEvents == s.roamingEvents && t.lastAggregatedServedBy == s.lastAggregatedServedBy;
      assert t.startTime == s.startTime;
      PollsFillWindow(t, events[1..]);
      assert PolledIds(events) == PolledId(events[0]) + PolledIds(events[1..]);
      assert s.servedBySamples + PolledId(events[0]) + PolledIds(events[1..])
          == s.servedBySamples + (PolledId(events[0]) + PolledIds(events[1..]));
    }
  }

  // Roaming.

  /**
   * Between resets, the roaming count grows by the number of changes in the
   * sequence of resolved access points, counted from the last aggregated one,
   * and the last aggregated one is the latest resolved.
   */
  lemma {:induction false} RoamingCountsTransitions(s: State, events: seq<Event>)
    requires NoReset(events)
    ensures Run(s, events).roamingEvents ==
      s.roamingEvents + RoamingTransitions(s.lastAggregatedServedBy, ResolvedIds(s, events))
    ensures Run(s, events).lastAggregatedServedBy == LastId(s.lastAggregatedServedBy, ResolvedIds(s, events))
    decreases |events|
  {
    if events != [] {
      assert NoReset(events[1..]) by {
        forall i | 0 <= i < |events[1..]| ensures !(events[1..][i].MessageEvent? && IsReset(events[1..][i].message)) {
          assert events[1..][i] == events[i + 1];
        }
      }
      assert !(events[0].MessageEvent? && IsReset(events[0].message));
      var t := Step(s, events[0]);
      RoamingCountsTransitions(t, events[1..]);
      var rest := ResolvedIds(t, events[1..]);
      if events[0].AggregateTick? && s.servedBySamples != [] {
        var id := Majority(s.servedBySamples);
        assert ResolvedIds(s, events) == [id] + rest;
        assert ([id] + rest)[1..] == rest;
        MostCommonUnique(s.servedBySamples, id, t.lastAggregatedServedBy.value);
        if rest != [] {
          assert ([id] + rest)[|[id] + rest| - 1] == rest[|rest| - 1];
        }
      } else {
        assert ResolvedIds(s, events) == rest;
      }
    }
  }

  /**
   * While every poll that carries an access point reports the last
   * aggregated one, and the window holds only it, no aggregation counts a
   * roaming event.
   */
  lemma {:induction false} SteadyAccessPointNoRoaming(s: State, events: seq<Event>, ap: string)
    requires NoReset(events)
    requires s.lastAggregatedServedBy == Some(ap)
    requires forall x :: x in s.servedBySamples ==> x == ap
    requires forall x :: x in PolledIds(events) ==> x == ap
    ensures Run(s, events).roamingEvents == s.roamingEvents
    decreases |events|
  {
    if events != [] {
      assert NoReset(events[1..]) by {
        forall i | 0 <= i < |events[1..]| ensures !(events[1..][i].MessageEvent? && IsReset(events[1..][i].message)) {
          assert events[1..][i] == events[i + 1];
        }
      }
      assert !(events[0].MessageEvent? && IsReset(events[0].message));
      var t := Step(s, events[0]);
      var here := PolledId(events[0]);
      assert forall x :: x in PolledIds(events[1..]) ==> x in PolledIds(events);
      match events[0] {
      case PollEvent(response) =>
        assert t.servedBySamples == s.servedBySamples + here;
        assert forall x :: x in here ==> x in PolledIds(events);
        assert t.roamingEvents == s.roamingEvents && t.lastAggregatedServedBy == s.lastAggregatedServedBy;
      case AggregateTick(now) =>
        if s.servedBySamples != [] {
          assert t.lastAggregatedServedBy.value in s.servedBySamples;
          assert t.servedBySamples == [];
        }
      case MessageEvent(message, now) =>
        assert t == s;
      }
      SteadyAccessPointNoRoaming(t, events[1..], ap);
    }
  }

  /** Counting changes over two stretches: the second starts from where the first ended. */
  lemma {:induction false} TransitionsSplit(last: Option<string>, xs: seq<string>, ys: seq<string>)
    ensures RoamingTransitions(last, xs + ys) ==
      RoamingTransitions(last, xs) + RoamingTransitions(LastId(last, xs), ys)
    decreases |xs|
  {
    if xs == [] {
      assert xs + ys == ys;
    } else {
      assert (xs + ys)[0] == xs[0];
      assert (xs + ys)[1..] == xs[1..] + ys;
      TransitionsSplit(Some(xs[0]), xs[1..], ys);
      if |xs| > 1 {
        assert xs[1..][|xs[1..]| - 1] == xs[|xs| - 1];
      }
    }
  }

  /** A stretch of the same id counts one change if it differs from where it starts, none otherwise. */
  lemma {:induction false} StretchTransitions(last: Option<string>, ap: string, n: nat)
    requires n > 0
    ensures RoamingTransitions(last, seq(n, _ => ap)) == if last == Some(ap) then 0 else 1
    ensures LastId(last, seq(n, _ => ap)) == Some(ap)
    decreases n
  {
    var stretch := seq(n, _ => ap);
    if n > 1 {
      assert stretch[1..] == seq(n - 1, _ => ap);
      StretchTransitions(Some(ap), ap, n - 1);
    } else {
      assert stretch[1..] == [];
    }
  }

  /**
   * Resolving to A, then B, then A again, however long each stretch lasts,
   * counts exactly two roaming events when the last aggregated id was A.
   */
  lemma ThereAndBackCountsTwice(a: string, b: string, i: nat, j: nat, k: nat)
    requires a != b && j > 0 && k > 0
    ensures RoamingTransitions(Some(a), seq(i, _ => a) + seq(j, _ => b) + seq(k, _ => a)) == 2
  {
    var sa, sb, sc := seq(i, _ => a), seq(j, _ => b), seq(k, _ => a);
    TransitionsSplit(Some(a), sa + sb, sc);
    TransitionsSplit(Some(a), sa, sb);
    if i > 0 {
      StretchTransitions(Some(a), a, i);
    } else {
      assert sa == [];
    }
    StretchTransitions(Some(a), b, j);
    assert LastId(Some(a), sa + sb) == Some(b) by {
      assert (sa + sb)[|sa + sb| - 1] == sb[j - 1];
    }
    StretchTransitions(Some(b), a, k);
  }

  /**
   * Until some window has been resolved, the roaming count stays 0 and there
   * is no last aggregated id, whatever polls, empty ticks and messages came.
   */
  lemma {:induction false} NothingResolvedYet(s: State, events: seq<Event>)
    requires s.roamingEvents == 0 && s.lastAggregatedServedBy == None
    requires ResolvedIds(s, events) == []
    ensures Run(s, events).roamingEvents == 0 && Run(s, events).lastAggregatedServedBy == None
    decreases |events|
  {
    if events != [] {
      var t := Step(s, events[0]);
      assert ResolvedIds(t, events[1..]) == [];
      assert !(events[0].AggregateTick? && s.servedBySamples != []);
      NothingResolvedYet(t, events[1..]);
    }
  }

  /**
   * The server starts with no last aggregated id, so its first non-empty
   * window counts as a roaming event, whatever happened before it.
   */
  lemma FirstWindowCountsAsRoaming(start: int, events: seq<Event>, now: int)
    requires ResolvedIds(Init(start), events) == []
    requires Run(Init(start), events).servedBySamples != []
    ensures Aggregate(Run(Init(start), events), now).0.roamingEvents == 1
  {
    NothingResolvedYet(Init(start), events);
  }

  /**
   * After a reset at `resetAt` and the polls that follow it, the clock runs
   * from `resetAt`, no roaming event is counted, and each cumulative loss is
   * how far its raw reading has moved since the reset.
   */
  lemma {:induction false} PollsAfterReset(s: State, resetAt: int, events: seq<Event>)
    requires OnlyPolls(events)
    ensures var afterPolls := Run(HandleMessage(s, CommandObject(Some("reset")), resetAt), events);
      && afterPolls.startTime == resetAt && afterPolls.roamingEvents == 0
      && afterPolls.packetLossesDl == afterPolls.dlCurrentPoll - s.dlCurrentPoll
      && afterPolls.packetLossesUl == afterPolls.ulCurrentPoll - s.ulCurrentPoll
  {
    var r := HandleMessage(s, CommandObject(Some("reset")), resetAt);
    assert NoReset(events);
    LossesFollowRawReadings(r, events);
    PollsFillWindow(r, events);
  }

  /**
   * After a reset at `resetAt` and the polls that follow it, the next
   * snapshot reports as losses how far the raw readings have moved since the
   * reset, and at most one roaming event.
   */
  lemma ResetRestartsCounters(s: State, resetAt: int, events: seq<Event>, afterPolls: State, now: int)
    requires OnlyPolls(events)
    requires afterPolls == Run(HandleMessage(s, CommandObject(Some("reset")), resetAt), events)
    requires afterPolls.servedBySamples != []
    ensures var published := Aggregate(afterPolls, now).1;
      && published.Some?
      && published.value.packetLossesDl == afterPolls.dlCurrentPoll - s.dlCurrentPoll
      && published.value.packetLossesUl == afterPolls.ulCurrentPoll - s.ulCurrentPoll
      && published.value.roamingCount <= 1
  {
    PollsAfterReset(s, resetAt, events);
    AggregatePublishes(afterPolls, now);
  }

  /** After a reset at `resetAt` and the polls that follow it, the next snapshot's uptime counts from `resetAt`. */
  lemma ResetRestartsUptime(s: State, resetAt: int, events: seq<Event>, afterPolls: State, now: int)
    requires OnlyPolls(events)
    requires afterPolls == Run(HandleMessage(s, CommandObject(Some("reset")), resetAt), events)
    requires afterPolls.servedBySamples != []
    ensures var published := Aggregate(afterPolls, now).1;
      && published.Some?
      && ParseUptime(published.value.uptime) == Some(Decompose(now - resetAt))
  {
    PollsAfterReset(s, resetAt, events);
    var elapsed := now - afterPolls.startTime;
    assert elapsed == now - resetAt;
    AggregatePublishes(afterPolls, now);
    assert ParseUptime(Aggregate(afterPolls, now).1.value.uptime) == Some(Decompose(elapsed));
  }

  /**
   * A reset keeps the last aggregated id, so a window that resolves to the
   * same access point after the reset counts no roaming event.
   */
  lemma ResetKeepsAccessPoint(s: State, now: int, later: int)
    requires s.lastAggregatedServedBy.Some?
    requires s.servedBySamples != [] && forall x :: x in s.servedBySamples ==> x == s.lastAggregatedServedBy.value
    ensures Aggregate(HandleMessage(s, CommandObject(Some("reset")), now), later).0.roamingEvents == 0
  {
  }
}
