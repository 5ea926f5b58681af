/** The event-driven relay (liosam_2_px4 node).

    Every odometry message is remapped from the FLU convention to the FRD
    convention, component by component, and relabelled "base_link"; it is
    published only when more than 20 ms have passed since the last publication,
    and dropped otherwise.  Both subscribers are registered before the node
    waits for the flight-controller link, so forwarding does not wait for it.
 */
module LiosamRelay {
  import opened Messages
  import opened Polling

  const FRD_CHILD_FRAME: string := "base_link"

  /** The minimum spacing of publications, rospy.Duration(0.02), in nanoseconds. */
  const MIN_INTERVAL_NS: int := 20_000_000

  // ---------------------------------------------------------------------------
  // The FLU to FRD remap

  /** One vector remapped: x and y swapped, z negated.  Its length is kept. */
  function FlipAxes(v: Vec3): (r: Vec3)
    ensures Norm2(r) == Norm2(v)
  {
    Vec3(v.y, v.x, -v.z)
  }

  /** The orientation is remapped as a flat vector, like the position: x and y
      swapped, z negated, w kept.  This is not a rotation of the quaternion,
      but the quaternion keeps its norm, so a unit quaternion stays one. */
  function FlipQuat(q: Quat): (r: Quat)
    ensures r.w == q.w
    ensures QuatNorm2(r) == QuatNorm2(q)
  {
    Quat(q.y, q.x, -q.z, q.w)
  }

  /** The converted copy of the odometry callback.  Every new component is
      read from the original message.  The header, both covariances and the
      orientation's w are those of the input; the child frame is "base_link". */
  function ToFrd(m: Odometry): (r: Odometry)
    ensures r.header == m.header
    ensures r.childFrameId == FRD_CHILD_FRAME
    ensures r.pose.covariance == m.pose.covariance
    ensures r.twist.covariance == m.twist.covariance
    ensures r.pose.pose.orientation.w == m.pose.pose.orientation.w
    ensures QuatNorm2(r.pose.pose.orientation) == QuatNorm2(m.pose.pose.orientation)
    ensures Norm2(r.pose.pose.position) == Norm2(m.pose.pose.position)
  {
    var p := m.pose.pose;
    var t := m.twist.twist;
    m.(childFrameId := FRD_CHILD_FRAME,
       pose := m.pose.(pose := Pose(FlipAxes(p.position), FlipQuat(p.orientation))),
       twist := m.twist.(twist := Twist(FlipAxes(t.linear), FlipAxes(t.angular))))
  }

  /** The component table of the conversion: each new x is the input's y,
      each new y the input's x, each new z the input's negated z, all read
      from the input message. */
  lemma ToFrdComponents(m: Odometry)
    ensures var p, q, r := m.pose.pose.position, m.pose.pose.orientation, ToFrd(m);
      && r.pose.pose.position.x == p.y && r.pose.pose.position.y == p.x && r.pose.pose.position.z == -p.z
      && r.pose.pose.orientation.x == q.y && r.pose.pose.orientation.y == q.x && r.pose.pose.orientation.z == -q.z
    ensures var l, r := m.twist.twist.linear, ToFrd(m);
      && r.twist.twist.linear.x == l.y && r.twist.twist.linear.y == l.x && r.twist.twist.linear.z == -l.z
    ensures var a, r := m.twist.twist.angular, ToFrd(m);
      && r.twist.twist.angular.x == a.y && r.twist.twist.angular.y == a.x && r.twist.twist.angular.z == -a.z
  {
  }

  lemma FlipAxesInvolution(v: Vec3)
    ensures FlipAxes(FlipAxes(v)) == v
  {
  }

  /** Converting twice gives back every number of the input; only the child
      frame name is left at "base_link". */
  lemma ToFrdInvolution(m: Odometry)
    ensures ToFrd(ToFrd(m)) == m.(childFrameId := FRD_CHILD_FRAME)
  {
    FlipAxesInvolution(m.pose.pose.position);
    FlipAxesInvolution(m.twist.twist.linear);
    FlipAxesInvolution(m.twist.twist.angular);
  }

  /** Position (1, 2, 3) with the identity orientation (0, 0, 0, 1) becomes
      position (2, 1, -3) with the same orientation. */
  lemma ToFrdExample(m: Odometry)
    requires m.pose.pose.position == Vec3(1.0, 2.0, 3.0)
    requires m.pose.pose.orientation == Quat(0.0, 0.0, 0.0, 1.0)
    ensures ToFrd(m).pose.pose.position == Vec3(2.0, 1.0, -3.0)
    ensures ToFrd(m).pose.pose.orientation == Quat(0.0, 0.0, 0.0, 1.0)
    ensures ToFrd(m).childFrameId == "base_link"
  {
  }

  // ---------------------------------------------------------------------------
  // The rate gate and the node's state

  /** The gate of the odometry callback: strictly more than 20 ms since the
      last publication. */
  predicate Admits(last: int, now: int)
    ensures Admits(last, now) ==> now > last
    ensures now - last == MIN_INTERVAL_NS ==> !Admits(last, now)
  {
    now - last > MIN_INTERVAL_NS
  }

  /** A publication: the message sent and the clock reading the gate used. */
  datatype Publication = Publication(msg: Odometry, at: int)

  /** What the middleware delivers to the node: a link status, or an odometry
      message together with the two clock readings its callback makes (the one
      the gate compares, and the one stored after publishing). */
  datatype Event =
    | StatusMsg(status: FcuState)
    | OdomMsg(msg: Odometry, checkedAt: int, storedAt: int)

  /** The node's globals: the link status, the time of the last publication,
      and everything published so far. */
  datatype Relay = Relay(status: FcuState, last: int, out: seq<Publication>)

  /** The state at process start: a fresh status record and the start time as
      the time of the last publication. */
  function Initial(startNs: int): (r: Relay)
    ensures r.last == startNs && r.out == [] && !r.status.connected
  {
    Relay(INITIAL_STATE, startNs, [])
  }

  /** One callback.  A status message only replaces the status; an odometry
      message publishes exactly when the gate admits it and never touches the
      status. */
  function Step(r: Relay, e: Event): (res: Relay)
    ensures r.out <= res.out && |res.out| <= |r.out| + 1
    ensures |res.out| == |r.out| + 1 <==> e.OdomMsg? && Admits(r.last, e.checkedAt)
    ensures e.StatusMsg? ==> res.status == e.status && res.out == r.out && res.last == r.last
    ensures e.OdomMsg? ==> res.status == r.status
  {
    match e
    case StatusMsg(s) => r.(status := s)
    case OdomMsg(m, checkedAt, storedAt) =>
      if Admits(r.last, checkedAt)
      then r.(last := storedAt, out := r.out + [Publication(ToFrd(m), checkedAt)])
      else r
  }

  /** The callbacks for a series of events, in order.  Publications are only
      appended, at most one per event: nothing is queued. */
  function Run(r: Relay, events: seq<Event>): (res: Relay)
    ensures r.out <= res.out
    ensures |res.out| <= |r.out| + |events|
  {
    if events == [] then r
    else Step(Run(r, events[..|events| - 1]), events[|events| - 1])
  }

  lemma {:induction false} RunAppend(r: Relay, a: seq<Event>, b: seq<Event>)
    ensures Run(r, a + b) == Run(Run(r, a), b)
    decreases |b|
  {
    if b == [] {
      assert a + b == a;
    } else {
      assert (a + b)[..|a + b| - 1] == a + b[..|b| - 1];
      RunAppend(r, a, b[..|b| - 1]);
    }
  }

  /** The second clock reading of each odometry callback is no earlier than
      the first. */
  predicate WellClocked(events: seq<Event>)
  {
    forall i :: 0 <= i < |events| && events[i].OdomMsg? ==> events[i].checkedAt <= events[i].storedAt
  }

  /** The publications from index n on are more than 20 ms apart, and the last
      of them was checked no later than the stored time. */
  predicate SpacedFrom(r: Relay, n: nat)
  {
    && (forall k :: n <= k && k + 1 < |r.out| ==> r.out[k + 1].at - r.out[k].at > MIN_INTERVAL_NS)
    && (n < |r.out| ==> r.out[|r.out| - 1].at <= r.last)
  }

  lemma {:induction false} RunKeepsSpaced(r: Relay, events: seq<Event>, n: nat)
    requires SpacedFrom(r, n) && WellClocked(events)
    ensures SpacedFrom(Run(r, events), n)
    decreases |events|
  {
    if events != [] {
      var init := events[..|events| - 1];
      assert WellClocked(init) by {
        forall i | 0 <= i < |init| && init[i].OdomMsg?
          ensures init[i].checkedAt <= init[i].storedAt
        {
          assert init[i] == events[i];
        }
      }
      RunKeepsSpaced(r, init, n);
    }
  }

  /** Whatever the state, any two consecutive publications made from it are
      more than 20 ms apart when the clock readings of each callback are in
      order, and the stored time is no earlier than the gate reading of the
      latest of them. */
  lemma PublicationsSpaced(r: Relay, events: seq<Event>)
    requires WellClocked(events)
    ensures forall k :: |r.out| <= k && k + 1 < |Run(r, events).out| ==>
      Run(r, events).out[k + 1].at - Run(r, events).out[k].at > MIN_INTERVAL_NS
    ensures |Run(r, events).out| > |r.out| ==>
      Run(r, events).out[|Run(r, events).out| - 1].at <= Run(r, events).last
  {
    RunKeepsSpaced(r, events, |r.out|);
  }

  /** Every publication made from r is more than 20 ms after r's last
      publication time, and the stored time never moves back. */
  lemma {:induction false} PublicationsAfterLast(r: Relay, events: seq<Event>)
    requires WellClocked(events)
    ensures Run(r, events).last >= r.last
    ensures forall k :: |r.out| <= k < |Run(r, events).out| ==> Admits(r.last, Run(r, events).out[k].at)
    decreases |events|
  {
    if events != [] {
      var init := events[..|events| - 1];
      assert WellClocked(init) by {
        forall i | 0 <= i < |init| && init[i].OdomMsg?
          ensures init[i].checkedAt <= init[i].storedAt
        {
          assert init[i] == events[i];
        }
      }
      PublicationsAfterLast(r, init);
    }
  }

  /** Messages that arrive within 20 ms of process start are dropped. */
  lemma StartupBurstDropped(startNs: int, events: seq<Event>)
    requires WellClocked(events)
    ensures forall k :: 0 <= k < |Run(Initial(startNs), events).out| ==>
      Run(Initial(startNs), events).out[k].at > startNs + MIN_INTERVAL_NS
  {
    PublicationsAfterLast(Initial(startNs), events);
  }

  /** Arrivals that all fail the gate against the current last publication
      time publish nothing and leave that time as it is. */
  lemma {:induction false} BurstDropped(r: Relay, events: seq<Event>)
    requires forall i :: 0 <= i < |events| && events[i].OdomMsg? ==> !Admits(r.last, events[i].checkedAt)
    ensures Run(r, events).out == r.out && Run(r, events).last == r.last
    decreases |events|
  {
    if events != [] {
      var init := events[..|events| - 1];
      forall i | 0 <= i < |init| && init[i].OdomMsg?
        ensures !Admits(r.last, init[i].checkedAt)
      {
        assert init[i] == events[i];
      }
      BurstDropped(r, init);
    }
  }

  /** Every publication made from r was checked at a time in [lo, hi] when all
      odometry arrivals were. */
  lemma {:induction false} PublicationsWithin(r: Relay, events: seq<Event>, lo: int, hi: int)
    requires forall i :: 0 <= i < |events| && events[i].OdomMsg? ==> lo <= events[i].checkedAt <= hi
    ensures forall k :: |r.out| <= k < |Run(r, events).out| ==> lo <= Run(r, events).out[k].at <= hi
    decreases |events|
  {
    if events != [] {
      var init := events[..|events| - 1];
      forall i | 0 <= i < |init| && init[i].OdomMsg?
        ensures lo <= init[i].checkedAt <= hi
      {
        assert init[i] == events[i];
      }
      PublicationsWithin(r, init, lo, hi);
    }
  }

  /** Arrivals whose gate readings all fall within one 20 ms window publish
      at most once. */
  lemma WindowPublishesAtMostOnce(r: Relay, events: seq<Event>, lo: int)
    requires WellClocked(events)
    requires forall i :: 0 <= i < |events| && events[i].OdomMsg? ==>
      lo <= events[i].checkedAt <= lo + MIN_INTERVAL_NS
    ensures |Run(r, events).out| <= |r.out| + 1
  {
    var out := Run(r, events).out;
    if |out| > |r.out| + 1 {
      var k := |r.out|;
      var first, second := out[k].at, out[k + 1].at;
      PublicationsWithin(r, events, lo, lo + MIN_INTERVAL_NS);
      assert lo <= first && second <= lo + MIN_INTERVAL_NS;
      PublicationsSpaced(r, events);
      assert false;
    }
  }

  /** A burst within one 20 ms window whose first message passes the gate
      publishes exactly that message, converted. */
  lemma BurstPublishesOnce(r: Relay, events: seq<Event>, lo: int)
    requires events != [] && events[0].OdomMsg? && Admits(r.last, events[0].checkedAt)
    requires WellClocked(events)
    requires forall i :: 0 <= i < |events| && events[i].OdomMsg? ==>
      lo <= events[i].checkedAt <= lo + MIN_INTERVAL_NS
    ensures |Run(r, events).out| == |r.out| + 1
    ensures Run(r, events).out[|r.out|] == Publication(ToFrd(events[0].msg), events[0].checkedAt)
  {
    assert events == events[..1] + events[1..];
    assert Run(r, events[..1]) == Step(r, events[0]);
    RunAppend(r, events[..1], events[1..]);
    WindowPublishesAtMostOnce(r, events, lo);
  }

  /** The link status has no part in forwarding: the publications and the
      stored time are the same whatever the status. */
  lemma {:induction false} StatusDoesNotGate(r: Relay, s: FcuState, events: seq<Event>)
    ensures Run(r.(status := s), events).out == Run(r, events).out
    ensures Run(r.(status := s), events).last == Run(r, events).last
    decreases |events|
  {
    if events != [] {
      StatusDoesNotGate(r, s, events[..|events| - 1]);
    }
  }

  /** The odometry events of a series, in order. */
  function OdomOnly(events: seq<Event>): (r: seq<Event>)
    ensures |r| <= |events|
    ensures forall j :: 0 <= j < |r| ==> r[j].OdomMsg?
  {
    if events == [] then []
    else
      var e := events[|events| - 1];
      OdomOnly(events[..|events| - 1]) + (if e.OdomMsg? then [e] else [])
  }

  /** Removing every status message from the input changes neither the
      publications nor the stored time. */
  lemma {:induction false} StatusEventsIgnored(r: Relay, events: seq<Event>)
    ensures Run(r, events).out == Run(r, OdomOnly(events)).out
    ensures Run(r, events).last == Run(r, OdomOnly(events)).last
    decreases |events|
  {
    if events != [] {
      var init, e := events[..|events| - 1], events[|events| - 1];
      StatusEventsIgnored(r, init);
      if e.OdomMsg? {
        RunAppend(r, OdomOnly(init), [e]);
        assert [e][..0] == [];
      } else {
        assert OdomOnly(events) == OdomOnly(init) + [] == OdomOnly(init);
        assert Run(r, events) == Step(Run(r, init), e);
      }
    }
  }

  /** Straight after start, before any status message, a message checked
      more than 20 ms after start is published. */
  lemma ForwardsBeforeConnection(startNs: int, m: Odometry, checkedAt: int, storedAt: int)
    requires checkedAt > startNs + MIN_INTERVAL_NS
    ensures !Initial(startNs).status.connected
    ensures Run(Initial(startNs), [OdomMsg(m, checkedAt, storedAt)]).out == [Publication(ToFrd(m), checkedAt)]
  {
    assert [OdomMsg(m, checkedAt, storedAt)][..0] == [];
  }

  // ---------------------------------------------------------------------------
  // The node

  /** What the k-th evaluation of the link loop's condition finds: a shutdown
      request, or a connected status. */
  predicate LinkCheckExits(r0: Relay, polls: seq<Poll<Event>>, k: nat)
    requires k < |polls|
  {
    polls[k].shutdown || Run(r0, Flatten(polls[..k])).status.connected
  }

  class LiosamNode {
    var currentState: FcuState
    var timeLastOdom: int
    var published: seq<Publication>

    function Snapshot(): Relay
      reads this
    {
      Relay(currentState, timeLastOdom, published)
    }

    /** Process start: the last publication time is the start time. */
    constructor (startNs: int)
      ensures Snapshot() == Initial(startNs)
      ensures !currentState.connected
    {
      currentState := INITIAL_STATE;
      timeLastOdom := startNs;
      published := [];
    }

    /** The status callback replaces the stored status wholesale. */
    method StateCb(msg: FcuState)
      modifies this`currentState
      ensures currentState == msg
    {
      currentState := msg;
    }

    /** The odometry callback: convert, then publish if and only if the gate
        admits the first clock reading, storing the second; otherwise drop the
        message and keep the stored time. */
    method OdometryCb(msg: Odometry, checkedAt: int, storedAt: int)
      modifies this`timeLastOdom, this`published
      ensures Admits(old(timeLastOdom), checkedAt) ==>
        published == old(published) + [Publication(ToFrd(msg), checkedAt)] && timeLastOdom == storedAt
      ensures !Admits(old(timeLastOdom), checkedAt) ==>
        published == old(published) && timeLastOdom == old(timeLastOdom)
    {
      var px4CompliantMsg := ToFrd(msg);
      if checkedAt - timeLastOdom > MIN_INTERVAL_NS {
        published := published + [Publication(px4CompliantMsg, checkedAt)];
        timeLastOdom := storedAt;
      }
    }

    /** The middleware hands one event to its callback. */
    method Deliver(e: Event)
      modifies this
      ensures Snapshot() == Step(old(Snapshot()), e)
    {
      match e {
        case StatusMsg(s) => StateCb(s);
        case OdomMsg(m, checkedAt, storedAt) => OdometryCb(m, checkedAt, storedAt);
      }
    }

    /** The link loop.  It runs while no shutdown is requested and the stored
        status is not connected; during each sleep the middleware delivers
        status and odometry messages alike, so odometry is forwarded while the
        loop waits.  It returns whether it exited and how many conditions it
        evaluated before that; when the polls run out first it is still
        waiting. */
    method WaitForConnection(polls: seq<Poll<Event>>) returns (released: bool, checks: nat)
      modifies this
      ensures checks <= |polls| && released == (checks < |polls|)
      ensures forall j :: 0 <= j < checks ==> !LinkCheckExits(old(Snapshot()), polls, j)
      ensures released ==> LinkCheckExits(old(Snapshot()), polls, checks)
      ensures Snapshot() == Run(old(Snapshot()), Flatten(polls[..checks]))
    {
      ghost var r0 := Snapshot();
      var i := 0;
      while i < |polls| && !polls[i].shutdown && !currentState.connected
        invariant i <= |polls|
        invariant Snapshot() == Run(r0, Flatten(polls[..i]))
        invariant forall j :: 0 <= j < i ==> !LinkCheckExits(r0, polls, j)
      {
        Dispatch(polls[i].arrivals);
        RunAppend(r0, Flatten(polls[..i]), polls[i].arrivals);
        FlattenStep(polls, i);
        i := i + 1;
      }
      checks := i;
      released := i < |polls|;
    }

    /** The middleware hands each event to its callback, in order: between
        subscribing and the loop's first check, during each sleep of the loop,
        and in the final spin. */
    method Dispatch(events: seq<Event>)
      modifies this
      ensures Snapshot() == Run(old(Snapshot()), events)
    {
      var i := 0;
      while i < |events|
        invariant i <= |events|
        invariant Snapshot() == Run(old(Snapshot()), events[..i])
      {
        Deliver(events[i]);
        assert events[..i + 1][..i] == events[..i];
        i := i + 1;
      }
      assert events[..i] == events;
    }
  }

  /** The main program: set the last publication time to the start time,
      register both subscribers, wait for the link while messages are already
      being forwarded, then spin.  The early events are those delivered between
      subscribing and the loop's first check.  The spin dispatches the events
      only when the wait ended on a connected status; after a shutdown it
      returns at once, and when the wait's polls run out the node is still
      waiting. */
  method Launch(startNs: int, early: seq<Event>, polls: seq<Poll<Event>>, events: seq<Event>)
    returns (node: LiosamNode, released: bool, checks: nat)
    ensures fresh(node)
    ensures checks <= |polls| && released == (checks < |polls|)
    ensures forall j :: 0 <= j < checks ==> !LinkCheckExits(Run(Initial(startNs), early), polls, j)
    ensures released ==> LinkCheckExits(Run(Initial(startNs), early), polls, checks)
    ensures node.Snapshot()
         == Run(Initial(startNs),
                early + Flatten(polls[..checks])
                + (if released && !polls[checks].shutdown then events else []))
  {
    node := new LiosamNode(startNs);
    node.Dispatch(early);
    released, checks := node.WaitForConnection(polls);
    RunAppend(Initial(startNs), early, Flatten(polls[..checks]));
    if released && !polls[checks].shutdown {
      node.Dispatch(events);
      RunAppend(Initial(startNs), early + Flatten(polls[..checks]), events);
    } else {
      assert early + Flatten(polls[..checks]) + [] == early + Flatten(polls[..checks]);
    }
  }
}
