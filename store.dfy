/**
 * The ten module-level timestamps and the message handler that overwrites
 * them in place (run.py lines 38-47 and 84-116).
 *
 * This is the update the handler's branches describe. As written, the
 * handler has no `global` statement, so its assignments bind locals and the
 * module-level variables are never written; module AsWritten models that.
 */
module Store {
  import opened Wrappers
  import opened Sensors
  import opened SensorTable

  class SensorStore {
    var frontDoorLastOpen: Option<int>
    var frontDoorLastClosed: Option<int>
    var frontGateLastOpen: Option<int>
    var frontGateLastClosed: Option<int>
    var backDoorWestLastOpen: Option<int>
    var backDoorWestLastClosed: Option<int>
    var backDoorEastLastOpen: Option<int>
    var backDoorEastLastClosed: Option<int>
    var backGateLastOpen: Option<int>
    var backGateLastClosed: Option<int>

    /** The ten fields as a table value. */
    function Snapshot(): Table
      reads this
    {
      Table(SensorState(frontDoorLastOpen, frontDoorLastClosed),
            SensorState(frontGateLastOpen, frontGateLastClosed),
            SensorState(backDoorWestLastOpen, backDoorWestLastClosed),
            SensorState(backDoorEastLastOpen, backDoorEastLastClosed),
            SensorState(backGateLastOpen, backGateLastClosed))
    }

    /** Every timestamp starts absent. */
    constructor ()
      ensures Snapshot() == Initial()
    {
      frontDoorLastOpen, frontDoorLastClosed := None, None;
      frontGateLastOpen, frontGateLastClosed := None, None;
      backDoorWestLastOpen, backDoorWestLastClosed := None, None;
      backDoorEastLastOpen, backDoorEastLastClosed := None, None;
      backGateLastOpen, backGateLastClosed := None, None;
    }

    /**
     * Handles one message received at time `now`: an open report stamps the
     * sensor's last-open time, a closed report its last-closed time; anything
     * else leaves all ten timestamps as they were.
     */
    method OnMessage(msg: Message, now: int)
      modifies this
      ensures Snapshot() == Step(old(Snapshot()), msg, now)
      ensures forall s :: msg.topic == Topic(s) && msg.payload == OpenValue(s) ==>
        Snapshot() == old(Snapshot()).Set(s, SensorState(Some(now), old(Snapshot()).Get(s).lastClosed))
      ensures forall s :: msg.topic == Topic(s) && msg.payload == ClosedValue(s) ==>
        Snapshot() == old(Snapshot()).Set(s, SensorState(old(Snapshot()).Get(s).lastOpen, Some(now)))
      ensures (forall s, f :: !Marks(msg, s, f)) ==> Snapshot() == old(Snapshot())
    {
      ghost var before := Snapshot();
      if msg.topic == Topic(FrontDoor) {
        if msg.payload == OpenValue(FrontDoor) {
          frontDoorLastOpen := Some(now);
        } else if msg.payload == ClosedValue(FrontDoor) {
          frontDoorLastClosed := Some(now);
        }
      }
      if msg.topic == Topic(FrontGate) {
        if msg.payload == OpenValue(FrontGate) {
          frontGateLastOpen := Some(now);
        } else if msg.payload == ClosedValue(FrontGate) {
          frontGateLastClosed := Some(now);
        }
      }
      if msg.topic == Topic(BackDoorWest) {
        if msg.payload == OpenValue(BackDoorWest) {
          backDoorWestLastOpen := Some(now);
        } else if msg.payload == ClosedValue(BackDoorWest) {
          backDoorWestLastClosed := Some(now);
        }
      }
      if msg.topic == Topic(BackDoorEast) {
        if msg.payload == OpenValue(BackDoorEast) {
          backDoorEastLastOpen := Some(now);
        } else if msg.payload == ClosedValue(BackDoorEast) {
          backDoorEastLastClosed := Some(now);
        }
      }
      if msg.topic == Topic(BackGate) {
        if msg.payload == OpenValue(BackGate) {
          backGateLastOpen := Some(now);
        } else if msg.payload == ClosedValue(BackGate) {
          backGateLastClosed := Some(now);
        }
      }
      forall s | msg.topic == Topic(s) && msg.payload == OpenValue(s)
        ensures Snapshot() == before.Set(s, SensorState(Some(now), before.Get(s).lastClosed))
      {
        StepOnOpen(before, s, now);
      }
      forall s | msg.topic == Topic(s) && msg.payload == ClosedValue(s)
        ensures Snapshot() == before.Set(s, SensorState(before.Get(s).lastOpen, Some(now)))
      {
        StepOnClosed(before, s, now);
      }
      StepIsClassifyThenApply(before, msg, now);
    }
  }
}
