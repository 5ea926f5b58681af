/** The polling-timer relay (lio_2_px4 node).

    The node waits for the flight-controller link, then subscribes to the
    localisation odometry and keeps only the latest message, waits until one
    has arrived, and from then on a 50 Hz timer republishes a copy of the latest
    message whose child frame is renamed to "base_link_px4".  No numeric field
    is changed.
 */
module LioRelay {
  import opened Messages
  import opened Polling

  const PX4_CHILD_FRAME: string := "base_link_px4"

  /** The transform of the timer callback: an independent copy of the stored
      message that differs from it in the child frame name only. */
  function Relabel(m: Odometry): (r: Odometry)
    ensures r.childFrameId == PX4_CHILD_FRAME
    ensures r.(childFrameId := m.childFrameId) == m
  {
    m.(childFrameId := PX4_CHILD_FRAME)
  }

  lemma RelabelIdempotent(m: Odometry)
    ensures Relabel(Relabel(m)) == Relabel(m)
  {
  }

  /** The optional slot of the odometry callback: empty until the first
      message arrives, afterwards the most recent one.  This is `Latest` over
      an optional value; it is written out because the slot holds an
      `Option` while the arrivals are plain messages.  During relaying the
      slot is always full and `Current` follows it through the events. */
  function SlotAfter(slot: Option<Odometry>, msgs: seq<Odometry>): (r: Option<Odometry>)
    ensures r.Some? <==> slot.Some? || msgs != []
    ensures r != slot ==> r.Some? && r.value in msgs
  {
    if msgs == [] then slot else Some(msgs[|msgs| - 1])
  }

  /** Arrivals delivered in two batches fill the slot as one batch would. */
  lemma SlotAfterAppend(slot: Option<Odometry>, a: seq<Odometry>, b: seq<Odometry>)
    ensures SlotAfter(slot, a + b) == SlotAfter(SlotAfter(slot, a), b)
  {
    if b == [] {
      assert a + b == a;
    }
  }

  /** What the k-th evaluation of the link loop's condition finds: a shutdown
      request, or a connected status. */
  predicate LinkCheckExits(s0: FcuState, polls: seq<Poll<FcuState>>, k: nat)
    requires k < |polls|
  {
    polls[k].shutdown || Latest(s0, Flatten(polls[..k])).connected
  }

  /** What the k-th evaluation of the data loop's condition finds: a shutdown
      request (now or earlier), or a message in the slot. */
  predicate DataCheckExits(stopped: bool, slot0: Option<Odometry>, polls: seq<Poll<Odometry>>, k: nat)
    requires k < |polls|
  {
    stopped || polls[k].shutdown || SlotAfter(slot0, Flatten(polls[..k])).Some?
  }

  /** What the middleware delivers once the relay runs: a new odometry message
      for the callback, or a tick of the 20 ms timer. */
  datatype Event = OdomArrival(msg: Odometry) | TimerTick

  /** The message in the slot after the events, starting from m: m itself or
      one of the messages that arrived. */
  function Current(m: Odometry, events: seq<Event>): (r: Odometry)
    ensures r == m || OdomArrival(r) in events
    decreases events
  {
    if events == [] then m
    else
      var r := Current(if events[0].OdomArrival? then events[0].msg else m, events[1..]);
      assert OdomArrival(r) in events[1..] ==> OdomArrival(r) in events;
      r
  }

  /** The messages published for the events, starting with m in the slot: each
      tick publishes the relabelled current message. */
  function Outputs(m: Odometry, events: seq<Event>): (out: seq<Odometry>)
    ensures |out| <= |events|
    ensures forall k :: 0 <= k < |out| ==> out[k].childFrameId == PX4_CHILD_FRAME
    decreases events
  {
    if events == [] then []
    else match events[0]
      case OdomArrival(n) => Outputs(n, events[1..])
      case TimerTick => [Relabel(m)] + Outputs(m, events[1..])
  }

  lemma {:induction false} CurrentAppend(m: Odometry, a: seq<Event>, b: seq<Event>)
    ensures Current(m, a + b) == Current(Current(m, a), b)
    decreases a
  {
    if a != [] {
      assert (a + b)[1..] == a[1..] + b;
      CurrentAppend(if a[0].OdomArrival? then a[0].msg else m, a[1..], b);
    } else {
      assert a + b == b;
    }
  }

  /** Running the events a then b publishes what a publishes, then what b
      publishes from the slot a leaves behind. */
  lemma {:induction false} OutputsAppend(m: Odometry, a: seq<Event>, b: seq<Event>)
    ensures Outputs(m, a + b) == Outputs(m, a) + Outputs(Current(m, a), b)
    decreases a
  {
    if a != [] {
      assert (a + b)[0] == a[0];
      assert (a + b)[1..] == a[1..] + b;
      match a[0]
      case OdomArrival(n) =>
        OutputsAppend(n, a[1..], b);
      case TimerTick =>
        OutputsAppend(m, a[1..], b);
    } else {
      assert a + b == b;
    }
  }

  /** Ticks alone do not change the slot. */
  lemma {:induction false} TicksKeepCurrent(m: Odometry, events: seq<Event>)
    requires forall j :: 0 <= j < |events| ==> events[j].TimerTick?
    ensures Current(m, events) == m
  {
    if events != [] {
      TicksKeepCurrent(m, events[1..]);
    }
  }

  /** Last value wins: the slot holds the most recent arrival. */
  lemma {:induction false} LastArrivalWins(m: Odometry, events: seq<Event>, k: nat)
    requires k < |events| && events[k].OdomArrival?
    requires forall j :: k < j < |events| ==> events[j].TimerTick?
    ensures Current(m, events) == events[k].msg
    decreases k
  {
    if k == 0 {
      TicksKeepCurrent(events[0].msg, events[1..]);
    } else {
      LastArrivalWins(if events[0].OdomArrival? then events[0].msg else m, events[1..], k - 1);
    }
  }

  /** Two ticks with no arrival in between publish the same message: the
      current one, relabelled. */
  lemma TicksRepublish(m: Odometry, before: seq<Event>)
    ensures Outputs(m, before + [TimerTick, TimerTick])
         == Outputs(m, before) + [Relabel(Current(m, before)), Relabel(Current(m, before))]
  {
    OutputsAppend(m, before, [TimerTick, TimerTick]);
  }

  /** How far the main program has got: waiting for the link (only the status
      subscriber exists), waiting for the first odometry message (the status
      subscriber is gone, the odometry subscriber exists), relaying (the timer
      exists too). */
  datatype Stage = WaitingForLink | WaitingForData | Relaying

  class LioNode {
    var currentState: FcuState
    var lioMsg: Option<Odometry>
    var stage: Stage
    /** A shutdown request observed by one of the wait loops. */
    var shutdown: bool
    var published: seq<Odometry>

    /** The odometry subscriber exists only once the link loop has exited, so
        the slot stays empty before; the timer exists only once the data loop
        has exited, so a tick, which only happens before shutdown, always finds
        a message in the slot.  Hence nothing is published unless the link
        reported connected. */
    ghost predicate Valid()
      reads this
    {
      && (stage == WaitingForLink ==> lioMsg.None? && !shutdown)
      && (stage != WaitingForLink ==> shutdown || currentState.connected)
      && (stage == Relaying && !shutdown ==> lioMsg.Some?)
      && (stage != Relaying ==> published == [])
      && (published != [] ==> !shutdown)
    }

    /** Process start: the status record is fresh (not connected), only the
        status subscriber is registered, no odometry message exists yet. */
    constructor ()
      ensures Valid()
      ensures currentState == INITIAL_STATE && !currentState.connected
      ensures stage == WaitingForLink && lioMsg == None && !shutdown && published == []
    {
      currentState := INITIAL_STATE;
      lioMsg := None;
      stage := WaitingForLink;
      shutdown := false;
      published := [];
    }

    /** The status callback replaces the stored status wholesale. */
    method StateCb(msg: FcuState)
      requires Valid() && stage == WaitingForLink
      modifies this`currentState
      ensures Valid() && currentState == msg
    {
      currentState := msg;
    }

    /** The odometry callback overwrites the slot with the new message. */
    method OdometryCb(msg: Odometry)
      requires Valid() && stage != WaitingForLink
      modifies this`lioMsg
      ensures Valid() && lioMsg == Some(msg)
    {
      lioMsg := Some(msg);
    }

    /** The middleware delivers status messages to the callback one after
        another, as during a sleep of the link loop. */
    method DeliverStatuses(msgs: seq<FcuState>)
      requires Valid() && stage == WaitingForLink
      modifies this`currentState
      ensures Valid() && currentState == Latest(old(currentState), msgs)
    {
      var k := 0;
      while k < |msgs|
        invariant k <= |msgs|
        invariant Valid() && stage == WaitingForLink
        invariant currentState == Latest(old(currentState), msgs[..k])
      {
        StateCb(msgs[k]);
        k := k + 1;
      }
      assert msgs[..k] == msgs;
    }

    /** The middleware delivers odometry messages to the callback one after
        another, as during a sleep of the data loop. */
    method DeliverOdometry(msgs: seq<Odometry>)
      requires Valid() && stage != WaitingForLink
      modifies this`lioMsg
      ensures Valid() && lioMsg == SlotAfter(old(lioMsg), msgs)
    {
      var k := 0;
      while k < |msgs|
        invariant k <= |msgs|
        invariant Valid() && stage != WaitingForLink
        invariant lioMsg == SlotAfter(old(lioMsg), msgs[..k])
      {
        OdometryCb(msgs[k]);
        k := k + 1;
      }
      assert msgs[..k] == msgs;
    }

    /** The timer callback publishes a relabelled copy of the stored message
        and leaves the stored message as it was. */
    method ReadAndPubLio()
      requires Valid() && stage == Relaying && !shutdown
      modifies this`published
      ensures Valid()
      ensures lioMsg == old(lioMsg)
      ensures published == old(published) + [Relabel(lioMsg.value)]
    {
      var px4CompliantMsg := Relabel(lioMsg.value);
      published := published + [px4CompliantMsg];
    }

    /** The link loop.  It runs while no shutdown is requested and the stored
        status is not connected, delivering status messages during each sleep.
        It returns whether it exited (released) and how many conditions it
        evaluated before that; when the polls run out first it is still
        waiting.  On exit the status subscriber is dropped and the odometry
        subscriber registered, whatever made the loop end. */
    method WaitForConnection(polls: seq<Poll<FcuState>>) returns (released: bool, checks: nat)
      requires Valid() && stage == WaitingForLink
      modifies this
      ensures Valid()
      ensures checks <= |polls| && released == (checks < |polls|)
      ensures forall j :: 0 <= j < checks ==> !LinkCheckExits(old(currentState), polls, j)
      ensures released ==> LinkCheckExits(old(currentState), polls, checks)
      ensures currentState == Latest(old(currentState), Flatten(polls[..checks]))
      ensures released ==> stage == WaitingForData && shutdown == polls[checks].shutdown
      ensures !released ==> stage == WaitingForLink && !shutdown
      ensures lioMsg == old(lioMsg) && published == old(published)
    {
      ghost var s0 := currentState;
      var i := 0;
      while i < |polls| && !polls[i].shutdown && !currentState.connected
        invariant i <= |polls|
        invariant Valid() && stage == WaitingForLink
        invariant currentState == Latest(s0, Flatten(polls[..i]))
        invariant forall j :: 0 <= j < i ==> !LinkCheckExits(s0, polls, j)
        invariant lioMsg == old(lioMsg) && published == old(published)
      {
        DeliverStatuses(polls[i].arrivals);
        LatestAppend(s0, Flatten(polls[..i]), polls[i].arrivals);
        FlattenStep(polls, i);
        i := i + 1;
      }
      checks := i;
      released := i < |polls|;
      if released {
        shutdown := polls[i].shutdown;
        stage := WaitingForData;
      }
    }

    /** The data loop.  It runs while no shutdown is requested and the slot is
        empty, delivering odometry messages during each sleep.  On exit the
        timer is started, whatever made the loop end. */
    method WaitForData(polls: seq<Poll<Odometry>>) returns (released: bool, checks: nat)
      requires Valid() && stage == WaitingForData
      modifies this
      ensures Valid()
      ensures checks <= |polls| && released == (checks < |polls|)
      ensures forall j :: 0 <= j < checks ==> !DataCheckExits(old(shutdown), old(lioMsg), polls, j)
      ensures released ==> DataCheckExits(old(shutdown), old(lioMsg), polls, checks)
      ensures lioMsg == SlotAfter(old(lioMsg), Flatten(polls[..checks]))
      ensures released ==> stage == Relaying && shutdown == (old(shutdown) || polls[checks].shutdown)
      ensures !released ==> stage == WaitingForData && shutdown == old(shutdown)
      ensures currentState == old(currentState) && published == old(published)
    {
      ghost var slot0 := lioMsg;
      var i := 0;
      while i < |polls| && !(shutdown || polls[i].shutdown) && lioMsg.None?
        invariant i <= |polls|
        invariant Valid() && stage == WaitingForData && shutdown == old(shutdown)
        invariant lioMsg == SlotAfter(slot0, Flatten(polls[..i]))
        invariant forall j :: 0 <= j < i ==> !DataCheckExits(old(shutdown), slot0, polls, j)
        invariant currentState == old(currentState) && published == old(published)
      {
        DeliverOdometry(polls[i].arrivals);
        SlotAfterAppend(slot0, Flatten(polls[..i]), polls[i].arrivals);
        FlattenStep(polls, i);
        i := i + 1;
      }
      checks := i;
      released := i < |polls|;
      if released {
        shutdown := shutdown || polls[i].shutdown;
        stage := Relaying;
      }
    }

    /** The middleware's dispatch once the timer runs: arrivals go to the
        odometry callback, ticks to the timer callback.  After a shutdown
        nothing is dispatched. */
    method Spin(events: seq<Event>)
      requires Valid() && stage == Relaying
      modifies this`lioMsg, this`published
      ensures Valid()
      ensures shutdown ==> lioMsg == old(lioMsg) && published == old(published)
      ensures !shutdown ==> old(lioMsg).Some?
      ensures !shutdown ==> lioMsg == Some(Current(old(lioMsg).value, events))
      ensures !shutdown ==> published == old(published) + Outputs(old(lioMsg).value, events)
    {
      if shutdown {
        return;
      }
      var m0 := lioMsg.value;
      var i := 0;
      while i < |events|
        invariant i <= |events|
        invariant Valid()
        invariant lioMsg == Some(Current(m0, events[..i]))
        invariant published == old(published) + Outputs(m0, events[..i])
        decreases |events| - i
      {
        assert events[..i + 1] == events[..i] + [events[i]];
        OutputsAppend(m0, events[..i], [events[i]]);
        CurrentAppend(m0, events[..i], [events[i]]);
        match events[i] {
          case OdomArrival(n) => OdometryCb(n);
          case TimerTick => ReadAndPubLio();
        }
        i := i + 1;
      }
      assert events[..i] == events;
    }
  }

  /** The main program: construct the node, wait for the link, wait for the
      first odometry message, start the timer and dispatch.  A subscriber may
      deliver before its loop first checks its condition: earlyStatus are the
      status messages delivered between subscribing and the first check of the
      link loop, earlyOdom the odometry messages delivered between subscribing
      and the first check of the data loop.  The polls describe the two waits
      (linked and streaming say whether each ended, lc and dc after how many
      checks), the events what is dispatched afterwards; a wait whose polls run
      out is still waiting when the method returns.  Once both waits are over
      and no shutdown was seen, the program publishes exactly `Outputs` of the
      events, starting from the message the data wait left in the slot. */
  method Launch(earlyStatus: seq<FcuState>, linkPolls: seq<Poll<FcuState>>,
                earlyOdom: seq<Odometry>, dataPolls: seq<Poll<Odometry>>, events: seq<Event>)
    returns (node: LioNode, linked: bool, lc: nat, streaming: bool, dc: nat)
    ensures fresh(node) && node.Valid()
    ensures lc <= |linkPolls| && linked == (lc < |linkPolls|)
    ensures forall j :: 0 <= j < lc ==> !LinkCheckExits(Latest(INITIAL_STATE, earlyStatus), linkPolls, j)
    ensures linked ==> LinkCheckExits(Latest(INITIAL_STATE, earlyStatus), linkPolls, lc)
    ensures !linked ==> node.stage == WaitingForLink && node.published == [] && !streaming && dc == 0
    ensures linked ==> dc <= |dataPolls| && streaming == (dc < |dataPolls|)
    ensures linked ==> forall j :: 0 <= j < dc ==>
      !DataCheckExits(linkPolls[lc].shutdown, SlotAfter(None, earlyOdom), dataPolls, j)
    ensures linked && streaming ==>
      DataCheckExits(linkPolls[lc].shutdown, SlotAfter(None, earlyOdom), dataPolls, dc)
    ensures linked && !streaming ==> node.stage == WaitingForData && node.published == []
    ensures linked && streaming ==>
      node.stage == Relaying && node.shutdown == (linkPolls[lc].shutdown || dataPolls[dc].shutdown)
    ensures linked && streaming && !node.shutdown ==>
      var s := SlotAfter(None, earlyOdom + Flatten(dataPolls[..dc]));
      && s.Some?
      && node.lioMsg == Some(Current(s.value, events))
      && node.published == Outputs(s.value, events)
    ensures node.published != [] ==>
      && linked && streaming && !node.shutdown
      && Latest(Latest(INITIAL_STATE, earlyStatus), Flatten(linkPolls[..lc])).connected
  {
    node := new LioNode();
    node.DeliverStatuses(earlyStatus);
    linked, lc := node.WaitForConnection(linkPolls);
    streaming, dc := false, 0;
    if !linked {
      return;
    }
    node.DeliverOdometry(earlyOdom);
    streaming, dc := node.WaitForData(dataPolls);
    SlotAfterAppend(None, earlyOdom, Flatten(dataPolls[..dc]));
    if !streaming {
      return;
    }
    node.Spin(events);
  }
}
