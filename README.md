# Bane Manor ambient controller: sensor table model

This project models the core of `run.py`, the ambient controller's MQTT
client. The controller listens for door and gate sensors that report open
(`"1"`) or closed (`"0"`) on their own topic. It keeps, for each of the five
sensors (front door, front gate, back door west, back door east and back
gate), the time it was last reported open and the time it was last reported
closed. It also reacts to the broker's CONNACK return code.

Modules:

- `Sensors` (`sensors.dfy`): the fixed registry. It holds each sensor's
  topic, its open and closed payloads, and the top-level topic.
- `SensorTable` (`table.dfy`): the ten timestamps as a value. `Step` is one
  call of the message handler, written as the source's five independent
  `if` blocks. `Classify` and `Apply` are an independent reading of the same
  update: find the one sensor the topic names, then stamp one of its fields.
- `Store` (`store.dfy`): class `SensorStore`, with the ten module-level
  variables as fields. Its `OnMessage` method overwrites them in place and is
  proved against `Step`.
- `Trace` (`trace.dfy`): the handler applied to a sequence of deliveries.
  After a run, each timestamp holds the arrival time of the last message that
  reported it. When messages arrive in time order, no timestamp goes
  backwards.
- `AsWritten` (`as_written.dfy`): the handler as `run.py` actually writes
  it, with the `global` statement missing (see Findings).
- `Connack` (`connack.dfy`): the dispatch on the CONNACK return code in the
  connection callback. The refusal codes follow table 3.1 in section 3.2.2.3
  of MQTT 3.1.1.

The source is Python 2 (`except Exception, e`), so `msg.payload` is a `str`
and compares directly with `'1'` and `'0'`. Topics and payloads are modelled
as `string`. The time of arrival is the integer parameter `now`, where the
source calls `time.time()`. A timestamp that Python holds as `None` is
`Option.None`.

Notes on the source:

- `connect` (run.py:151-152) installs only `on_connect` and `on_disconnect`.
  `on_message` is never registered, so the deployed program never runs the
  handler that this model describes.
- The client subscribes to the exact topic `/fireblimp/out` (run.py:18,
  run.py:69). That filter has no wildcard, and every sensor publishes one
  level below it (`/fireblimp/out/NN`, see `Sensors.TopicOneLevelBelow`). So no
  sensor message would be delivered. `Connack.SubscriptionMissesSensorTopics`
  states this.
- `run.py` has no suppression window for retained "closed" messages and no
  throb/glow/idle lighting decisions, so the model has none either.

## Model

| member | source | states |
|---|---|---|
| Sensors.Topic | run.py:21-33 | every sensor's topic starts with `/fireblimp/out/` and is followed by exactly two characters |
| Sensors.TopicOneLevelBelow | run.py:18-33 | every sensor's topic lies exactly one level below the top-level topic `/fireblimp/out`: it is that topic, a `/`, and a non-empty level name that contains no `/` |
| Sensors.ClosedValue | run.py:22-35 | for every sensor the closed payload differs from the open payload, so the `if`/`elif` choice is unambiguous |
| Sensors.TopicsDistinct | run.py:21-33 | the five sensor topics are pairwise distinct |
| Sensors.SensorOfTopic | run.py:88-112 | a topic resolves to sensor `s` exactly when it equals `s`'s topic; it resolves to nothing when no sensor has that topic |
| SensorTable.Initial | run.py:38-47 | at start-up all ten timestamps are absent |
| SensorTable.Step | run.py:88-116 | a message leaves every sensor whose topic differs from the message topic unchanged |
| SensorTable.StepStamp | run.py:88-116 | after a message, each of the ten fields is `now` exactly when the message reports that field (right topic, matching payload); otherwise it keeps its old value |
| SensorTable.Classify | run.py:88-116 | a message reads as "opened s" iff it carries `s`'s topic and open payload, as "closed s" iff it carries `s`'s topic and closed payload, and as ignored iff it reports no field at all |
| SensorTable.StepIsClassifyThenApply | run.py:88-116 | the five independent `if` blocks equal "find the sensor the topic names, then stamp one of its fields" |
| SensorTable.StepOnOpen | run.py:88-114 | an open report on `s`'s topic sets `s`'s last-open to `now` and changes no other timestamp, including `s`'s last-closed |
| SensorTable.StepOnClosed | run.py:88-116 | a closed report on `s`'s topic sets `s`'s last-closed to `now` and changes no other timestamp, including `s`'s last-open |
| SensorTable.StepUnknownPayload | run.py:89-92 | on a sensor's topic, a payload that is neither the open nor the closed value changes nothing (there is no `else` branch) |
| SensorTable.StepUnknownTopic | run.py:88-116 | a topic that names no sensor changes nothing |
| SensorTable.StepChangesAtMostOne | run.py:88-116 | one message changes at most one of the ten timestamps |
| Store.SensorStore.constructor | run.py:38-47 | the store starts with all ten timestamps absent |
| Store.SensorStore.OnMessage | run.py:84-116 | the ten fields are updated in place as `Step` says. An open report stamps only that sensor's last-open, a closed report stamps only its last-closed, and a message that reports nothing leaves all ten fields unchanged |
| Trace.RunKeepsUnreported | run.py:84-116 | over a sequence of messages, a timestamp that no message reports keeps its starting value |
| Trace.RunRecordsLatest | run.py:84-116 | over a sequence of messages, a timestamp holds the arrival time of the last message that reported it |
| Trace.RunAdvances | run.py:84-116 | if messages arrive in time order, no timestamp moves backwards or becomes absent, and none is later than the last arrival |
| AsWritten.OnMessageAsWritten | run.py:84-128 | as written, a call never changes the module-level timestamps, and it always ends in UnboundLocalError on `front_door_last_open` or `front_door_last_closed` |
| AsWritten.AsWrittenLosesReports | run.py:88-116 | as written, every report that should change a timestamp is lost: the module-level table differs from the intended update |
| Connack.ReturnCode | run.py:59-64 | each of the five refusals has a return code between 1 and 5 |
| Connack.OnConnect | run.py:66-82 | code 0, and only code 0, subscribes to `/fireblimp/out` at QoS 0. Codes 1 to 5, and only these, are refusals, each reported with its own reason. Every other code is a generic failure carrying the code |
| Connack.RefusalRoundTrip | run.py:71-80 | a refusal reason is reported exactly for its own return code, so the five codes map one-to-one to the five reasons |
| Connack.SubscriptionMissesSensorTopics | run.py:18-33 | the subscribed filter has no wildcard character and equals no sensor topic |

## Left out

- Client construction, `connect`, `username_pw_set` and `loop_forever` (run.py:50, run.py:146-170) are not modelled. They are thin calls into paho-mqtt, which is not part of this model. This includes the callback registration that leaves `on_message` uninstalled.
- Reading the broker host, port, credentials and client id from the environment (run.py:13-17) is not modelled. It is I/O with defaults only.
- `on_disconnect` (run.py:130-138) is not modelled. It prints and sleeps for five seconds.
- `cleanup` (run.py:140-144) is not modelled. It is signal handling and process exit.
- The diagnostic prints (run.py:118-128 and inside `on_connect`) are not modelled as output. `AsWritten` models only which names they read and the error that results.
- The wall clock is not modelled. `time.time()` returns a float, which is modelled as the integer parameter `now`.
- Concurrency between the broker's network loop and the handler is not modelled. The source runs everything on one thread in `loop_forever`.

## Findings

| source | as written | input that shows it | evidently intended | confidence | as-written member | corrected member |
|---|---|---|---|---|---|---|
| run.py:84-128 | `on_message` assigns the ten timestamp names without a `global` statement, so they are locals of the call. The module-level timestamps are never written, and the diagnostic print at line 119 or 120 raises UnboundLocalError | message (`/fireblimp/out/16`, `1`) at any time on the start-up table: front door's last-open stays absent | the handler stamps the module-level timestamp of the reported sensor and field | high; not executed | AsWritten.AsWrittenLosesReports | Store.SensorStore.OnMessage |
