/**
 * The sensor state table as a value, and what one incoming message does to it
 * (run.py lines 38-47 and 84-116).
 *
 * A timestamp is `None` until the first matching message arrives, as the
 * module-level variables start out as Python's None. The wall clock is not
 * modelled: the time of arrival is the parameter `now`.
 */
module SensorTable {
  import opened Wrappers
  import opened Sensors

  /** An incoming broker message. */
  datatype Message = Message(topic: string, payload: string)

  /** When a sensor was last reported open and last reported closed. */
  datatype SensorState = SensorState(lastOpen: Option<int>, lastClosed: Option<int>)

  /** The two timestamps a sensor carries. */
  datatype Field = LastOpen | LastClosed

  function Stamp(st: SensorState, f: Field): Option<int> {
    match f
    case LastOpen => st.lastOpen
    case LastClosed => st.lastClosed
  }

  /** The ten timestamps, two per sensor. */
  datatype Table = Table(frontDoor: SensorState, frontGate: SensorState, backDoorWest: SensorState,
                         backDoorEast: SensorState, backGate: SensorState)
  {
    function Get(s: Sensor): SensorState {
      match s
      case FrontDoor => frontDoor
      case FrontGate => frontGate
      case BackDoorWest => backDoorWest
      case BackDoorEast => backDoorEast
      case BackGate => backGate
    }

    /** The table with the state of `s` replaced and every other sensor as before. */
    function Set(s: Sensor, st: SensorState): (r: Table)
      ensures r.Get(s) == st
      ensures forall o :: o != s ==> r.Get(o) == Get(o)
    {
      match s
      case FrontDoor => this.(frontDoor := st)
      case FrontGate => this.(frontGate := st)
      case BackDoorWest => this.(backDoorWest := st)
      case BackDoorEast => this.(backDoorEast := st)
      case BackGate => this.(backGate := st)
    }
  }

  /** The state at start-up: no sensor has been heard from. */
  function Initial(): (t: Table)
    ensures forall s, f :: Stamp(t.Get(s), f) == None
  {
    var none := SensorState(None, None);
    Table(none, none, none, none, none)
  }

  /** What a message does to one field: "this message reports that field". */
  predicate Marks(msg: Message, s: Sensor, f: Field) {
    msg.topic == Topic(s) &&
    msg.payload == match f case LastOpen => OpenValue(s) case LastClosed => ClosedValue(s)
  }

  /**
   * One of the five `if` blocks of the handler: on the sensor's topic, the
   * open payload stamps `lastOpen`, otherwise the closed payload stamps
   * `lastClosed`, and any other payload changes nothing.
   */
  function Record(st: SensorState, s: Sensor, msg: Message, now: int): SensorState {
    if msg.topic != Topic(s) then st
    else if msg.payload == OpenValue(s) then st.(lastOpen := Some(now))
    else if msg.payload == ClosedValue(s) then st.(lastClosed := Some(now))
    else st
  }

  /** The handler's five blocks, run one after the other on the table. */
  function Step(t: Table, msg: Message, now: int): (r: Table)
    ensures forall s :: msg.topic != Topic(s) ==> r.Get(s) == t.Get(s)
  {
    Table(Record(t.frontDoor, FrontDoor, msg, now),
          Record(t.frontGate, FrontGate, msg, now),
          Record(t.backDoorWest, BackDoorWest, msg, now),
          Record(t.backDoorEast, BackDoorEast, msg, now),
          Record(t.backGate, BackGate, msg, now))
  }

  /** Each field after a message: `now` exactly when the message reports that field. */
  lemma StepStamp(t: Table, msg: Message, now: int, s: Sensor, f: Field)
    ensures Stamp(Step(t, msg, now).Get(s), f) == if Marks(msg, s, f) then Some(now) else Stamp(t.Get(s), f)
  {
  }

  /** How the handler reads a message, independently of the table. */
  datatype Event = Opened(sensor: Sensor) | Closed(sensor: Sensor) | Ignored

  /** Resolves the topic to a sensor, then the payload to open, closed or neither. */
  function Classify(msg: Message): (e: Event)
    ensures forall s :: e == Opened(s) <==> Marks(msg, s, LastOpen)
    ensures forall s :: e == Closed(s) <==> Marks(msg, s, LastClosed)
    ensures e == Ignored <==> forall s, f :: !Marks(msg, s, f)
  {
    match SensorOfTopic(msg.topic)
    case None => Ignored
    case Some(s) =>
      if msg.payload == OpenValue(s) then Opened(s)
      else if msg.payload == ClosedValue(s) then Closed(s)
      else Ignored
  }

  /** The update an event calls for: stamp one field of one sensor, or nothing. */
  function Apply(t: Table, e: Event, now: int): Table {
    match e
    case Opened(s) => t.Set(s, t.Get(s).(lastOpen := Some(now)))
    case Closed(s) => t.Set(s, t.Get(s).(lastClosed := Some(now)))
    case Ignored => t
  }

  /**
   * The five independent `if` blocks amount to "find the one sensor the topic
   * names and stamp one of its fields".
   */
  lemma StepIsClassifyThenApply(t: Table, msg: Message, now: int)
    ensures Step(t, msg, now) == Apply(t, Classify(msg), now)
  {
  }

  /** An open report stamps that sensor's `lastOpen` and changes nothing else. */
  lemma StepOnOpen(t: Table, s: Sensor, now: int)
    ensures Step(t, Message(Topic(s), OpenValue(s)), now)
         == t.Set(s, SensorState(Some(now), t.Get(s).lastClosed))
  {
    StepIsClassifyThenApply(t, Message(Topic(s), OpenValue(s)), now);
  }

  /** A closed report stamps that sensor's `lastClosed` and changes nothing else. */
  lemma StepOnClosed(t: Table, s: Sensor, now: int)
    ensures Step(t, Message(Topic(s), ClosedValue(s)), now)
         == t.Set(s, SensorState(t.Get(s).lastOpen, Some(now)))
  {
    StepIsClassifyThenApply(t, Message(Topic(s), ClosedValue(s)), now);
  }

  /** A payload that is neither the open nor the closed value changes nothing. */
  lemma StepUnknownPayload(t: Table, s: Sensor, payload: string, now: int)
    requires payload != OpenValue(s) && payload != ClosedValue(s)
    ensures Step(t, Message(Topic(s), payload), now) == t
  {
    StepIsClassifyThenApply(t, Message(Topic(s), payload), now);
  }

  /** A topic that names no sensor changes nothing. */
  lemma StepUnknownTopic(t: Table, msg: Message, now: int)
    requires forall s :: msg.topic != Topic(s)
    ensures Step(t, msg, now) == t
  {
  }

  /** A message changes at most one of the ten timestamps. */
  lemma StepChangesAtMostOne(t: Table, msg: Message, now: int)
    ensures forall s1, f1, s2, f2 ::
      Stamp(Step(t, msg, now).Get(s1), f1) != Stamp(t.Get(s1), f1) &&
      Stamp(Step(t, msg, now).Get(s2), f2) != Stamp(t.Get(s2), f2)
      ==> s1 == s2 && f1 == f2
  {
  }
}
