# LIO-2-PX4 relay nodes, modelled in Dafny

The repository holds two small ROS nodes. Each one forwards the odometry estimate of a lidar-inertial localisation system (LIO-SAM) to a PX4 flight controller through MAVROS. This project models what the two nodes compute and the order in which they do it.

- **lio_2_px4** (`lio_2_px4.dfy`, module `LioRelay`) is the polling-timer variant. It waits until the flight-controller link reports `connected`. Then it subscribes to the odometry topic and keeps only the most recent message in one slot. It waits until that slot is filled. After that a 20 ms timer republishes a copy of the slot with the child frame renamed to `base_link_px4`. No number in the message changes.
- **liosam_2_px4** (`liosam_2_px4.dfy`, module `LiosamRelay`) is the event-driven variant. Each odometry message is remapped from FLU to FRD, one component at a time: `x' = y`, `y' = x`, `z' = -z` for the position, the orientation's x/y/z, the linear velocity and the angular velocity. The orientation's `w` and every other field are kept, and the child frame is set to `base_link`. The message is published only when strictly more than 20 ms have passed since the last publication; otherwise it is dropped. Both subscribers are registered before the wait for the link, so forwarding does not wait for the connection.
- `messages.dfy` (module `Messages`) holds the message types: `Odometry` with its header, pose, twist and covariances, and `FcuState`, the link status.
- `polling.dfy` (module `Polling`) describes one run of a `while not is_shutdown() and not <condition>: rate.sleep()` loop. It is a sequence of polls. Each poll holds the shutdown answer at one evaluation of the condition, and the callbacks delivered during the sleep that follows.

Each node is a class. Its fields are the script's globals, plus a `published` field that records what has been published; the lio node also records how far `__main__` has got (`stage` and `shutdown`), while the liosam node records only what has been published. Its methods are the callbacks, the wait loops of `__main__` and the middleware's dispatch (`Spin` in lio, `Dispatch` in liosam; the lio node also has `DeliverStatuses` and `DeliverOdometry` for the messages a sleep delivers). A publication is an append to a `published` sequence. The liosam node's state is also given as a value (`Relay`). There it comes with a pure step function `Step` and its fold `Run`, and the class methods are proved against them. The properties of whole message sequences are lemmas about `Run`. For lio, the timer phase is specified by the pure functions `Current` (the slot) and `Outputs` (what the ticks publish).

Time is integer nanoseconds. The 20 ms of the gate is `MIN_INTERVAL_NS = 20_000_000`. The clock is an input. The liosam callback reads it twice: `checkedAt` is the reading the gate compares, and `storedAt` is the later reading it stores after publishing. The callback demands nothing of these readings. The spacing lemmas assume only `checkedAt <= storedAt` within each callback (`WellClocked`).

Points of behaviour the model keeps from the scripts:
- In lio_2_px4, the program goes on after the link loop even when that loop ended because of a shutdown. It still drops the status subscriber, subscribes to odometry, runs the second wait and creates the timer (scripts/lio_2_px4.py:64-81). The model does the same. No tick happens after a shutdown, because the middleware's timer stops then. For that reason `ReadAndPubLio` requires that no shutdown was seen, and under that condition the slot is always full.
- In liosam_2_px4, odometry is forwarded before the link is connected, and during the wait loop itself (scripts/liosam_2_px4.py:55-61). The model's wait loop delivers odometry as well as status messages. `StatusDoesNotGate` and `ForwardsBeforeConnection` state that the status has no effect on forwarding.
- In lio_2_px4, a tick only ever reads a full slot: the timer is created after the data loop, and the data loop exits on a full slot or on a shutdown, after which no tick happens. The liosam callback always gets its message as an argument.
- A subscriber may deliver messages before its wait loop first checks its condition (scripts/lio_2_px4.py:61-64 and 72-75, scripts/liosam_2_px4.py:53-60). Both `Launch` methods take these early arrivals as an input of their own.
- The orientation is remapped as a flat vector, not by a quaternion rotation, exactly as the code does it. The model proves that the quaternion's norm is kept, and nothing about rotations.

## Model

| member | source | states |
|---|---|---|
| `LioRelay.Relabel` | scripts/lio_2_px4.py:34-52 | the published copy has child frame `base_link_px4` and equals the stored message in every other field |
| `LioRelay.RelabelIdempotent` | scripts/lio_2_px4.py:52 | relabelling a relabelled message changes nothing |
| `LioRelay.Outputs` | scripts/lio_2_px4.py:30-54 | during relaying, each event publishes at most one message, and every published message carries child frame `base_link_px4` |
| `LioRelay.SlotAfter` | scripts/lio_2_px4.py:20-22 | the slot is full exactly when it was full before or a message arrived; when it changed, it holds one of the arrived messages |
| `LioRelay.SlotAfterAppend` | scripts/lio_2_px4.py:20-22 | messages delivered in two batches fill the slot as one batch would |
| `LioRelay.Current` | scripts/lio_2_px4.py:20-22 | during relaying, the slot holds the message it started with or one of the messages that arrived |
| `LioRelay.CurrentAppend` | scripts/lio_2_px4.py:20-22 | the slot after events a then b is the slot b leaves when started from the slot a leaves |
| `LioRelay.OutputsAppend` | scripts/lio_2_px4.py:20-54 | events a then b publish what a publishes, then what b publishes starting from the slot a leaves |
| `LioRelay.TicksKeepCurrent` | scripts/lio_2_px4.py:30-34 | ticks alone leave the slot unchanged, because the timer callback only reads it |
| `LioRelay.LastArrivalWins` | scripts/lio_2_px4.py:20-22 | after any events the slot holds the most recent arrival |
| `LioRelay.TicksRepublish` | scripts/lio_2_px4.py:30-34 | two ticks with no arrival between them publish the same message, the relabelled current slot |
| `LioRelay.LioNode.constructor` | scripts/lio_2_px4.py:12 | the status starts as a fresh record, not connected; only the status subscriber exists; the slot is empty; nothing is published |
| `LioRelay.LioNode.StateCb` | scripts/lio_2_px4.py:15-17 | the stored status is replaced wholesale by the message |
| `LioRelay.LioNode.OdometryCb` | scripts/lio_2_px4.py:20-22 | the slot is overwritten with the message |
| `LioRelay.LioNode.DeliverStatuses` | scripts/lio_2_px4.py:15-17 | after a series of status messages the stored status is the last of them, or unchanged if there were none |
| `LioRelay.LioNode.DeliverOdometry` | scripts/lio_2_px4.py:20-22 | after a series of odometry messages the slot is as `SlotAfter` says: the last of them, or unchanged if there were none |
| `LioRelay.LioNode.ReadAndPubLio` | scripts/lio_2_px4.py:30-54 | appends the relabelled slot to the published messages and leaves the slot itself unchanged |
| `LioRelay.LioNode.WaitForConnection` | scripts/lio_2_px4.py:61-72 | no check before the exit sees a shutdown or a connected status; the exit check sees one of them; the status is the last one delivered; on exit the status subscriber is dropped and the odometry subscriber registered |
| `LioRelay.LioNode.WaitForData` | scripts/lio_2_px4.py:72-81 | no check before the exit sees a shutdown or a full slot; the exit check sees one of them; the slot holds the last message delivered; on exit the timer is started, and unless shut down the slot is full |
| `LioRelay.LioNode.Spin` | scripts/lio_2_px4.py:81-83 | after a shutdown nothing happens; otherwise the published messages grow by `Outputs` of the events and the slot becomes `Current` of them |
| `LioRelay.Launch` | scripts/lio_2_px4.py:57-83 | no check of the link loop before its exit sees a shutdown or a connected status, judged from the early status messages on; the exit check sees one of them; likewise for the data loop, with the shutdown seen by the link loop and the slot the early odometry left; once both waits are over and no shutdown was seen, the slot and the published messages are `Current` and `Outputs` of the events, from the message the data wait left; something is published only then, and only after the link loop's exit check saw a connected status |
| `LiosamRelay.FlipAxes` | scripts/liosam_2_px4.py:24-26 | the per-axis remap keeps the vector's squared length |
| `LiosamRelay.FlipQuat` | scripts/liosam_2_px4.py:28-30 | the orientation remap keeps `w` and the quaternion's norm, so a unit quaternion stays one |
| `LiosamRelay.ToFrd` | scripts/liosam_2_px4.py:19-40 | the converted copy has the input's header, covariances and orientation `w`, child frame `base_link`, and the input's position length and quaternion norm |
| `LiosamRelay.ToFrdComponents` | scripts/liosam_2_px4.py:24-38 | for the position, the orientation's x/y/z, the linear and the angular velocity: new x is the input's y, new y the input's x, new z the input's negated z |
| `LiosamRelay.FlipAxesInvolution` | scripts/liosam_2_px4.py:24-26 | remapping a vector twice gives it back |
| `LiosamRelay.ToFrdInvolution` | scripts/liosam_2_px4.py:24-38 | converting twice restores every numeric field; only the child frame stays `base_link` |
| `LiosamRelay.ToFrdExample` | scripts/liosam_2_px4.py:24-40 | position (1, 2, 3) with orientation (0, 0, 0, 1) becomes (2, 1, -3) with orientation (0, 0, 0, 1), child frame `base_link` |
| `LiosamRelay.Admits` | scripts/liosam_2_px4.py:43 | the gate only opens for a reading after the stored time, and stays shut at exactly 20 ms |
| `LiosamRelay.Initial` | scripts/liosam_2_px4.py:12-51 | at start the stored time is the start time (line 51), the status is a fresh record and not connected (line 12) and nothing is published |
| `LiosamRelay.Step` | scripts/liosam_2_px4.py:14-45 | one callback: a status message only replaces the status; an odometry message publishes one message exactly when the gate admits its first reading, and never changes the status |
| `LiosamRelay.Run` | scripts/liosam_2_px4.py:42-45 | publications are only appended, at most one per event; nothing is queued |
| `LiosamRelay.RunAppend` | scripts/liosam_2_px4.py:42-45 | running a then b is running b from the state a leaves |
| `LiosamRelay.RunKeepsSpaced` | scripts/liosam_2_px4.py:43-45 | the callbacks keep this invariant: publications more than 20 ms apart, and the stored time no earlier than the last gate reading |
| `LiosamRelay.PublicationsSpaced` | scripts/liosam_2_px4.py:43-45 | any two consecutive publications are more than 20 ms apart; after a publication the stored time is at least the reading the gate used |
| `LiosamRelay.PublicationsAfterLast` | scripts/liosam_2_px4.py:43-45 | every later publication is more than 20 ms after the current last-publication time, and that time never moves back |
| `LiosamRelay.StartupBurstDropped` | scripts/liosam_2_px4.py:43-51 | since the last-publication time starts at process start, every publication is more than 20 ms after start |
| `LiosamRelay.BurstDropped` | scripts/liosam_2_px4.py:43-44 | arrivals that all fail the gate publish nothing and leave the stored time as it was |
| `LiosamRelay.PublicationsWithin` | scripts/liosam_2_px4.py:43-44 | when the gate readings of all arrivals lie in an interval, so do the times of the publications they cause |
| `LiosamRelay.WindowPublishesAtMostOnce` | scripts/liosam_2_px4.py:43-45 | arrivals whose gate readings fall within one 20 ms window publish at most once |
| `LiosamRelay.BurstPublishesOnce` | scripts/liosam_2_px4.py:43-45 | such a burst whose first message passes the gate publishes exactly once: that message, converted |
| `LiosamRelay.StatusDoesNotGate` | scripts/liosam_2_px4.py:19-45 | publications and the stored time do not depend on the link status |
| `LiosamRelay.StatusEventsIgnored` | scripts/liosam_2_px4.py:14-45 | removing every status message from the input leaves the publications and the stored time unchanged |
| `LiosamRelay.ForwardsBeforeConnection` | scripts/liosam_2_px4.py:51-56 | just after start, while not connected, a message checked more than 20 ms after start is published |
| `LiosamRelay.LiosamNode.constructor` | scripts/liosam_2_px4.py:51 | the last-publication time is the start time; the status is a fresh, unconnected record; nothing is published |
| `LiosamRelay.LiosamNode.StateCb` | scripts/liosam_2_px4.py:14-16 | the stored status is replaced wholesale by the message |
| `LiosamRelay.LiosamNode.OdometryCb` | scripts/liosam_2_px4.py:19-45 | publishes the converted message, and stores the second clock reading, if and only if the first reading is strictly more than 20 ms after the stored time; otherwise it publishes nothing and keeps the stored time |
| `LiosamRelay.LiosamNode.Deliver` | scripts/liosam_2_px4.py:53-55 | one delivered event changes the node's state exactly as `Step` says |
| `LiosamRelay.LiosamNode.WaitForConnection` | scripts/liosam_2_px4.py:59-61 | no check before the exit sees a shutdown or a connected status; the exit check sees one of them; meanwhile every delivered event, odometry included, has been processed as `Run` says |
| `LiosamRelay.LiosamNode.Dispatch` | scripts/liosam_2_px4.py:53-65 | the node's new state is `Run` of the dispatched events |
| `LiosamRelay.Launch` | scripts/liosam_2_px4.py:48-65 | the wait's checks are judged from the state the early arrivals leave; the wait ends after the first check that sees a shutdown or a connected status; the whole program's state is `Run`, from the start state, of the early arrivals, of everything delivered during the wait and, only when the wait ended without a shutdown, of the events the spin dispatches |
| `Polling.Latest` | scripts/lio_2_px4.py:15-17 | the stored value after a series of arrivals is the one it started with or one that arrived |
| `Polling.LatestAppend` | scripts/lio_2_px4.py:15-17 | values delivered in two batches leave what one batch would |
| `Polling.FlattenStep` | scripts/liosam_2_px4.py:60-61 | the input seen by check k + 1 is the input seen by check k plus what poll k delivered |

## Left out

- The ROS runtime is left out: node initialisation, the construction of publishers and subscribers, topic names, queue sizes, unregistering, logging and `rospy.spin` as a real event loop. Publishing is an append to a sequence. Dispatch is a sequence of serial callback calls.
- `rospy.Rate(20).sleep()` and the `rospy.Timer(Duration(.02))` schedule are left out: real-time sleeping and timer dispatch are the runtime's job. A sleep is one poll of a wait loop. A timer tick is an explicit event. The model does not state that ticks come every 20 ms.
- Concurrency between the timer thread and the subscriber callbacks over the shared globals is left out. Callbacks are modelled as interleaved one at a time.
- Floating-point behaviour is left out. Every floating-point field is a `real`, and the remap only swaps and negates them, which is exact.
- Rotation correctness of the FLU to FRD conversion is left out, and so is the reasoning behind PX4's board-rotation setting (scripts/lio_2_px4.py:36-51). The code remaps components and does not rotate anything.
- `copy.deepcopy` is left out. Messages are immutable values, so a copy is the value itself.
- The `OdometryRelay.odom_pub` publisher (created at scripts/lio_2_px4.py:27-28, published on at line 54) has no model of its own: publishing always goes to the one output sequence.
- LiosamRelay.Launch: does not model the window between the two registrations. In liosam_2_px4 the odometry subscriber is registered (scripts/liosam_2_px4.py:55) before `odom_pub` is bound (line 56). A message that passes the gate in that window makes line 44 raise a NameError: nothing is published and `time_last_odom` is not updated. The model treats `odom_pub` as bound from the start, so `Launch` publishes such a message and stores the time.
- LioRelay.Launch: status messages delivered after the link loop's exit check and before the status subscriber is unregistered (scripts/lio_2_px4.py:64-69) are not modelled. In the script they can overwrite `current_state`, which is not read again. The model stops delivering status messages at the exit check, so the node's stored status stays the one that check saw. `Launch` states the connected status through that exit check.
- A wait loop whose polls run out is reported as still waiting. The model cannot express a real run that never ends.
