/**
 * The message handler exactly as run.py lines 84-128 write it.
 *
 * The handler assigns the ten timestamp names but has no `global` statement,
 * so Python treats all ten as locals of the call: the module-level table is
 * never written. The diagnostic prints then read the ten names in order, and
 * the first one the call did not assign raises UnboundLocalError.
 */
module AsWritten {
  import opened Wrappers
  import opened Sensors
  import opened SensorTable

  datatype HandlerOutcome = Returned | RaisedUnboundLocal(name: string)

  /** The ten locals after the five blocks; `None` is a name this call never bound. */
  function Locals(msg: Message, now: int): Table {
    Step(Initial(), msg, now)
  }

  /** The first name the diagnostic prints read that is not bound (run.py lines 119-128). */
  function FirstUnbound(locals: Table): Option<string> {
    if locals.frontDoor.lastOpen.None? then Some("front_door_last_open")
    else if locals.frontDoor.lastClosed.None? then Some("front_door_last_closed")
    else if locals.frontGate.lastOpen.None? then Some("front_gate_last_open")
    else if locals.frontGate.lastClosed.None? then Some("front_gate_last_closed")
    else if locals.backDoorWest.lastOpen.None? then Some("back_door_west_last_open")
    else if locals.backDoorWest.lastClosed.None? then Some("back_door_west_last_closed")
    else if locals.backDoorEast.lastOpen.None? then Some("back_door_east_last_open")
    else if locals.backDoorEast.lastClosed.None? then Some("back_door_east_last_closed")
    else if locals.backGate.lastOpen.None? then Some("back_gate_last_open")
    else if locals.backGate.lastClosed.None? then Some("back_gate_last_closed")
    else None
  }

  /**
   * One call of the handler as written: the module-level table is returned
   * unchanged, and the call always ends in UnboundLocalError on one of the
   * front door's two names, because one message binds at most one local.
   */
  function OnMessageAsWritten(globals: Table, msg: Message, now: int): (r: (Table, HandlerOutcome))
    ensures r.0 == globals
    ensures r.1 == RaisedUnboundLocal("front_door_last_open") || r.1 == RaisedUnboundLocal("front_door_last_closed")
  {
    match FirstUnbound(Locals(msg, now))
    case Some(name) => (globals, RaisedUnboundLocal(name))
    case None => (globals, Returned)
  }

  /**
   * Every report the branches describe is lost: for any message that reports
   * a field whose value would change, the table as written differs from the
   * intended update.
   */
  lemma AsWrittenLosesReports(globals: Table, msg: Message, now: int, s: Sensor, f: Field)
    requires Marks(msg, s, f) && Stamp(globals.Get(s), f) != Some(now)
    ensures OnMessageAsWritten(globals, msg, now).0 != Step(globals, msg, now)
  {
    StepStamp(globals, msg, now, s, f);
  }
}
