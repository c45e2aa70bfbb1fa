/**
 * The fixed registry of door and gate sensors: the topic each one publishes on
 * and the payloads that mean "open" and "closed" (run.py lines 18-35).
 */
module Sensors {
  import opened Wrappers

  /** The five physical sensors. */
  datatype Sensor = FrontDoor | FrontGate | BackDoorWest | BackDoorEast | BackGate

  /** The topic the controller subscribes to once the broker accepts the connection. */
  const TopLevelTopic: string := "/fireblimp/out"

  /** Every sensor topic starts with the top-level topic and a `/`, followed by two characters. */
  function Topic(s: Sensor): (t: string)
    ensures |t| == |TopLevelTopic| + 3
    ensures t[..|TopLevelTopic| + 1] == TopLevelTopic + "/"
  {
    match s
    case FrontDoor => "/fireblimp/out/16"
    case FrontGate => "/fireblimp/out/15"
    case BackDoorWest => "/fireblimp/out/22"
    case BackDoorEast => "/fireblimp/out/18"
    case BackGate => "/fireblimp/out/13"
  }

  /**
   * Each sensor topic is the top-level topic, a `/`, and one level name with
   * no `/` in it: it lies exactly one level below the top-level topic.
   */
  lemma TopicOneLevelBelow(s: Sensor)
    ensures Topic(s)[..|TopLevelTopic| + 1] == TopLevelTopic + "/"
    ensures |Topic(s)| > |TopLevelTopic| + 1
    ensures '/' !in Topic(s)[|TopLevelTopic| + 1..]
  {
  }

  /** The payload that reports the sensor open; every sensor uses the same polarity. */
  function OpenValue(s: Sensor): (v: string)
    ensures |v| == 1
  {
    "1"
  }

  /** The payload that reports the sensor closed; never the open payload. */
  function ClosedValue(s: Sensor): (v: string)
    ensures |v| == 1
    ensures v != OpenValue(s)
  {
    "0"
  }

  /** No two sensors share a topic, so a message names at most one sensor. */
  lemma TopicsDistinct()
    ensures forall s1, s2 :: Topic(s1) == Topic(s2) ==> s1 == s2
  {
  }

  /** The sensor whose topic is `topic`, if there is one. */
  function SensorOfTopic(topic: string): (r: Option<Sensor>)
    ensures forall s :: r == Some(s) <==> Topic(s) == topic
  {
    TopicsDistinct();
    if topic == Topic(FrontDoor) then Some(FrontDoor)
    else if topic == Topic(FrontGate) then Some(FrontGate)
    else if topic == Topic(BackDoorWest) then Some(BackDoorWest)
    else if topic == Topic(BackDoorEast) then Some(BackDoorEast)
    else if topic == Topic(BackGate) then Some(BackGate)
    else None
  }
}
