/**
 * What the connection callback does with the broker's CONNACK return code
 * (run.py lines 53-82). The printed messages are not modelled; the outcome
 * says which branch was taken and, on success, what is subscribed to.
 */
module Connack {
  import opened Sensors

  /**
   * The five refusals of table 3.1 in section 3.2.2.3 of MQTT 3.1.1, one per
   * branch of the callback.
   */
  datatype RefusalReason =
    | UnacceptableProtocolVersion
    | IdentifierRejected
    | ServerUnavailable
    | BadUserNameOrPassword
    | NotAuthorized

  datatype ConnectOutcome =
    | Subscribe(filter: string, qos: nat)  // connected: subscribe to `filter` at this QoS
    | Refused(reason: RefusalReason)
    | Failed(code: int)                    // any other return code

  /** The CONNACK return code that signals `reason`. */
  function ReturnCode(reason: RefusalReason): (c: int)
    ensures 1 <= c <= 5
  {
    match reason
    case UnacceptableProtocolVersion => 1
    case IdentifierRejected => 2
    case ServerUnavailable => 3
    case BadUserNameOrPassword => 4
    case NotAuthorized => 5
  }

  /**
   * Code 0 subscribes to the top-level topic at QoS 0, codes 1 to 5 are the
   * five refusals, and every other code is a generic failure.
   */
  function OnConnect(code: int): (r: ConnectOutcome)
    ensures r.Subscribe? <==> code == 0
    ensures r.Subscribe? ==> r.filter == TopLevelTopic && r.qos == 0
    ensures r.Refused? <==> 1 <= code <= 5
    ensures r.Refused? ==> ReturnCode(r.reason) == code
    ensures r.Failed? ==> r.code == code
  {
    if code == 0 then Subscribe(TopLevelTopic, 0)
    else if code == 1 then Refused(UnacceptableProtocolVersion)
    else if code == 2 then Refused(IdentifierRejected)
    else if code == 3 then Refused(ServerUnavailable)
    else if code == 4 then Refused(BadUserNameOrPassword)
    else if code == 5 then Refused(NotAuthorized)
    else Failed(code)
  }

  /** Each refusal is reported for exactly its own return code. */
  lemma RefusalRoundTrip(reason: RefusalReason, code: int)
    ensures OnConnect(code) == Refused(reason) <==> code == ReturnCode(reason)
  {
  }

  /**
   * The subscription holds no wildcard character, so under section 4.7 of
   * MQTT 3.1.1 it matches only the identical topic name, and no sensor
   * publishes on that name: as written, no sensor message is delivered.
   */
  lemma SubscriptionMissesSensorTopics()
    ensures '#' !in OnConnect(0).filter && '+' !in OnConnect(0).filter
    ensures forall s :: Topic(s) != OnConnect(0).filter
  {
  }
}
