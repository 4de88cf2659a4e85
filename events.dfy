/**
 * The firmware's schedule: a singly linked list of light events, and the
 * rules that decide, minute by minute, whether an event is active.
 *
 * A `Time` is the record that ConvertTime builds (day of the run, hour,
 * minute); the core only ever reads it, so it is a value here. An `Event`
 * node keeps its device, frequency, intensity, sunset flag and its start and
 * stop times as given to NewEvent; the core only ever writes `isActive` and
 * `next` after that, so those two are the node's only mutable fields.
 */
module Events {

  datatype Time = Time(day: int, hour: int, min: int)

  /** Minutes in a day, as used for the current time and by GetLongestEvent. */
  const MinutesPerDay := 1440

  /**
   * The day length CheckToRunEvent uses for an event's start and stop days.
   * It differs from MinutesPerDay; the firmware computes it this way.
   */
  const ScheduleMinutesPerDay := 1400

  /** Minutes since the start of the run, with 1440-minute days. */
  function RealMinute(day: int, hour: int, min: int): int {
    day * MinutesPerDay + hour * 60 + min
  }

  /** An event boundary in minutes as CheckToRunEvent computes it (1400-minute days). */
  function ScheduleMinute(t: Time): int {
    t.day * ScheduleMinutesPerDay + t.hour * 60 + t.min
  }

  /** The end of an event in minutes, as GetLongestEvent computes it. */
  function EndMinute(t: Time): int {
    RealMinute(t.day, t.hour, t.min)
  }

  /** True when `t` names exactly the given day, hour and minute. */
  predicate IsAt(t: Time, day: int, hour: int, min: int) {
    t.day == day && t.hour == hour && t.min == min
  }

  /** The half-open window test of CheckToRunEvent, 1400-minute days included. */
  predicate InRunWindow(start: Time, stop: Time, daysElapsed: int, hour: int, min: int) {
    var now := RealMinute(daysElapsed, hour, min);
    ScheduleMinute(start) <= now && now < ScheduleMinute(stop)
  }

  class Event {
    const device: int
    const frequency: int
    const intensity: int
    const sunset: bool
    const start: Time
    const stop: Time
    var isActive: bool
    var next: Event?

    /** NewEvent: a detached, inactive node holding exactly the given data. */
    constructor (device: int, frequency: int, intensity: int, sunset: bool, start: Time, stop: Time)
      ensures this.device == device && this.frequency == frequency && this.intensity == intensity
      ensures this.sunset == sunset && this.start == start && this.stop == stop
      ensures !isActive && next == null
    {
      this.device := device;
      this.frequency := frequency;
      this.intensity := intensity;
      this.sunset := sunset;
      this.start := start;
      this.stop := stop;
      isActive := false;
      next := null;
    }
  }

  class EventList {
    var root: Event?
    var nEvents: int
    /** The chain root, root.next, root.next.next, ... up to the node whose next is null. */
    ghost var Nodes: seq<Event>

    /**
     * `Nodes` is exactly the chain reachable from `root` (distinct nodes, so
     * no cycle), and the counter equals its length.
     */
    ghost predicate Valid()
      reads this, Nodes
    {
      && nEvents == |Nodes|
      && (root == null <==> Nodes == [])
      && (root != null ==> root == Nodes[0])
      && (forall i {:trigger Nodes[i]} :: 0 <= i < |Nodes| ==> Nodes[i].next == if i + 1 < |Nodes| then Nodes[i + 1] else null)
      && (forall i, j :: 0 <= i < j < |Nodes| ==> Nodes[i] != Nodes[j])
    }

    /** NewEventList: an empty list whose counter starts at 0. */
    constructor ()
      ensures Valid() && Nodes == [] && root == null && nEvents == 0
    {
      root := null;
      nEvents := 0;
      Nodes := [];
    }
  }

  /**
   * AddEvent: append `n` at the tail by walking `next` from the root, then
   * count it. Earlier nodes keep their order and their state; only the old
   * tail's `next` changes.
   */
  method AddEvent(s: EventList, n: Event)
    requires s.Valid()
    requires n !in s.Nodes && n.next == null
    modifies s, s.Nodes
    ensures s.Valid()
    ensures s.Nodes == old(s.Nodes) + [n]
    ensures s.nEvents == old(s.nEvents) + 1
    ensures old(s.root) == null ==> s.root == n
    ensures old(s.root) != null ==> s.root == old(s.root)
    ensures forall i :: 0 <= i < |old(s.Nodes)| ==> s.Nodes[i].isActive == old(s.Nodes[i].isActive)
  {
    if s.root == null {
      s.root := n;
    } else {
      var current: Event := s.root;
      ghost var k := 0;
      while current.next != null
        invariant 0 <= k < |s.Nodes| && current == s.Nodes[k]
        decreases |s.Nodes| - k
      {
        current := current.next;
        k := k + 1;
      }
      assert k == |s.Nodes| - 1;
      current.next := n;
    }
    s.Nodes := s.Nodes + [n];
    s.nEvents := s.nEvents + 1;
  }

  /**
   * check_for_event_start: a latch that switches the event on when its start
   * is exactly the current day, hour and minute, and otherwise leaves it.
   */
  method CheckForEventStart(event: Event, nowHour: int, nowMinute: int, daysElapsed: int)
    modifies event`isActive
    ensures IsAt(event.start, daysElapsed, nowHour, nowMinute) ==> event.isActive
    ensures !IsAt(event.start, daysElapsed, nowHour, nowMinute) ==> event.isActive == old(event.isActive)
  {
    var start := event.start;
    if start.day == daysElapsed && start.hour == nowHour && start.min == nowMinute {
      event.isActive := true;
    }
  }

  /**
   * check_for_event_end: a latch that switches the event off when its stop
   * is exactly the current day, hour and minute, and otherwise leaves it.
   */
  method CheckForEventEnd(event: Event, now: Time, daysElapsed: int)
    modifies event`isActive
    ensures IsAt(event.stop, daysElapsed, now.hour, now.min) ==> !event.isActive
    ensures !IsAt(event.stop, daysElapsed, now.hour, now.min) ==> event.isActive == old(event.isActive)
  {
    var stop := event.stop;
    if stop.day == daysElapsed && stop.hour == now.hour && stop.min == now.min {
      event.isActive := false;
    }
  }

  /**
   * check_to_run_event: always overwrites the flag with the window test,
   * whatever the flag was before; `now.day` is not consulted.
   */
  method CheckToRunEvent(event: Event, now: Time, daysElapsed: int)
    modifies event`isActive
    ensures event.isActive == InRunWindow(event.start, event.stop, daysElapsed, now.hour, now.min)
  {
    var globalMin := daysElapsed * 1440 + now.hour * 60 + now.min;
    var globalStartMin := event.start.day * 1400 + event.start.hour * 60 + event.start.min;
    var globalEndMin := event.stop.day * 1400 + event.stop.hour * 60 + event.stop.min;
    if globalMin >= globalStartMin && globalMin < globalEndMin {
      event.isActive := true;
    } else {
      event.isActive := false;
    }
  }

  /**
   * The window CheckToRunEvent tests is the real interval [start, stop)
   * moved earlier by 40 minutes for every day of the start and of the stop;
   * on day 0 the two agree.
   */
  lemma RunWindowShift(start: Time, stop: Time, daysElapsed: int, hour: int, min: int)
    ensures var now := RealMinute(daysElapsed, hour, min);
            InRunWindow(start, stop, daysElapsed, hour, min) <==>
              EndMinute(start) - 40 * start.day <= now < EndMinute(stop) - 40 * stop.day
  {
  }

  /**
   * An event set for day 1 from 00:00 to 01:00 is reported active from 23:20
   * on day 0 until 00:20 on day 1.
   */
  lemma RunWindowDriftsEarly()
    ensures !InRunWindow(Time(1, 0, 0), Time(1, 1, 0), 0, 23, 19)
    ensures InRunWindow(Time(1, 0, 0), Time(1, 1, 0), 0, 23, 20)
    ensures InRunWindow(Time(1, 0, 0), Time(1, 1, 0), 1, 0, 19)
    ensures !InRunWindow(Time(1, 0, 0), Time(1, 1, 0), 1, 0, 20)
  {
  }

  /** The stop times of a chain of nodes, in chain order. */
  function StopTimes(nodes: seq<Event>): (r: seq<Time>)
    ensures |r| == |nodes| && forall i :: 0 <= i < |nodes| ==> r[i] == nodes[i].stop
  {
    seq(|nodes|, i requires 0 <= i < |nodes| => nodes[i].stop)
  }

  /** The largest end minute among `stops`, or 0 when none is larger. */
  function LongestEnd(stops: seq<Time>): int {
    if stops == [] then 0
    else
      var rest := LongestEnd(stops[..|stops| - 1]);
      var last := EndMinute(stops[|stops| - 1]);
      if last > rest then last else rest
  }

  /** LongestEnd is the maximum of 0 and every end minute: an upper bound that is attained. */
  lemma {:induction false} LongestEndIsMaximum(stops: seq<Time>)
    ensures LongestEnd(stops) >= 0
    ensures forall i :: 0 <= i < |stops| ==> EndMinute(stops[i]) <= LongestEnd(stops)
    ensures LongestEnd(stops) == 0 || exists i :: 0 <= i < |stops| && EndMinute(stops[i]) == LongestEnd(stops)
  {
    if stops != [] {
      var init := stops[..|stops| - 1];
      LongestEndIsMaximum(init);
      assert forall i :: 0 <= i < |init| ==> stops[i] == init[i];
      if LongestEnd(stops) != 0 && LongestEnd(stops) != EndMinute(stops[|stops| - 1]) {
        var j :| 0 <= j < |init| && EndMinute(init[j]) == LongestEnd(init);
        assert EndMinute(stops[j]) == LongestEnd(stops);
      }
    }
  }

  /**
   * get_longest_event: scan the first nEvents nodes and return the latest
   * end, in minutes, or 0. The list is only read.
   */
  method GetLongestEvent(events: EventList) returns (lastEventEnd: int)
    requires events.Valid()
    ensures lastEventEnd == LongestEnd(StopTimes(events.Nodes))
    ensures lastEventEnd >= 0
    ensures forall i :: 0 <= i < |events.Nodes| ==> EndMinute(events.Nodes[i].stop) <= lastEventEnd
    ensures lastEventEnd == 0 ||
            exists i :: 0 <= i < |events.Nodes| && EndMinute(events.Nodes[i].stop) == lastEventEnd
  {
    ghost var stops := StopTimes(events.Nodes);
    lastEventEnd := 0;
    var currentEvent := events.root;
    for i := 0 to events.nEvents
      invariant currentEvent == if i < |events.Nodes| then events.Nodes[i] else null
      invariant lastEventEnd == LongestEnd(stops[..i])
    {
      var endTime := currentEvent.stop;
      var endTotalMin := endTime.day * 60 * 24 + endTime.hour * 60 + endTime.min;
      assert stops[..i + 1][..i] == stops[..i];
      if endTotalMin > lastEventEnd {
        lastEventEnd := endTotalMin;
      }
      currentEvent := currentEvent.next;
    }
    assert stops[..|stops|] == stops;
    LongestEndIsMaximum(stops);
  }
}
