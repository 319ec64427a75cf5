# greengrass-cpu-filter: the subscriber's change-detection filter in Dafny

The relay receives CPU readings `{device_name, cpu, timestamp}` from the local
Greengrass pub/sub bus and forwards to the IoT Core topic `iot/metrics/cpu`
only the readings that changed. The subscriber keeps `last_cpu_per_device`,
the last value forwarded for each device. This project models two versions of
that subscriber as pure functions over immutable data:

- `Subscriber` (`src/subscriber.py`): `handle_message` validates the message.
  It must be a dict with `device_name`, `cpu` and `timestamp`, coerced with
  `str`/`float`/`str`. A reading is forwarded when the device has no entry, or
  when it moved by more than 0.01 from the entry. On a forward the cache is
  updated first and `publish_to_iot_core` runs second. That call swallows every
  timeout and error.
- `SubscriberRun`: `handle_message` applied to a stream of messages. The cache
  always holds each device's latest forwarded value. A device has an entry
  exactly when one of its readings was forwarded. A message delivered
  several times in a row is forwarded at most once. A redelivery is compared
  with the device's latest forward, not with its own earlier delivery: once a
  reading more than 0.01 away from it has been forwarded, it can be forwarded
  again.
- `LegacySubscriber` (`zip-build/greengrass-cpu-filter/src/subscriber.py`):
  the earlier `callback`. It needs only non-None `device_name` and `cpu`. It
  stores `cpu` uncoerced whenever it differs under Python's exact `!=`. Its
  publish call is commented out, so a message only affects the cache.
- `PyJson`: the decoded JSON payload and the Python built-ins the two versions
  apply to it. These are `float()`, `str()`, `==` (True equals 1, also inside
  lists and dicts) and dict-key hashing.

The metric is a Dafny `real` and the tolerance is exactly 1/100. Two Python
conversions depend on text formats. They are parameters of every operation, in
a `Conversions` value: the string parsing done by `float(s)`, which may fail
with ValueError, and the rendering of numbers, lists and dicts by `str(v)`.
The IoT Core transport's answer to a publish (acknowledged, timed out, failed,
or failed before sending) is also a parameter. It is recorded in the
`Forwarded` decision.

The docstring of `handle_message` (src/subscriber.py:52-55) and `DeviceMessage`
(src/utils/typings.py:4-7) declare `device_name: str` and `cpu: float`. The
code, however, coerces whatever value it receives:
- `device_name` may be empty and may be any JSON value, because `str` never
  fails on one. `None` becomes the device `"None"`.
- A `cpu` of `true` is the reading 1.0.

A rejection for a missing field does not name the field. The source takes no
lock around the read and update of `last_cpu_per_device`.

## Model

| member | source | states |
|---|---|---|
| `PyJson.HashKeyAgreesWithPyEq` | zip-build/greengrass-cpu-filter/src/subscriber.py:60-65 | two hashable device names select the same cache entry exactly when Python compares them equal (1, 1.0 and True are one device) |
| `PyJson.PyEqNull` | zip-build/greengrass-cpu-filter/src/subscriber.py:60-62 | only None compares equal to None, so an absent entry always differs from a non-None `cpu` |
| `Subscriber.Validate` | src/subscriber.py:56-71 | a non-dict is NotADictionary; a dict missing any of the three fields is MissingRequiredField; a `cpu` that `float` rejects is InvalidFormat with that ValueError or TypeError; each rejection is exactly when its condition holds; on success the reading's fields are the coerced values |
| `Subscriber.ValidateSerialize` | src/main.py:17-25 | a reading put in the wire shape the publisher loop builds validates back to the same reading, whatever the text conversions are |
| `Subscriber.ValidationIdempotent` | src/subscriber.py:65-71 | re-serializing a validated reading and validating it again gives the same result |
| `Subscriber.HandleMessage` | src/subscriber.py:51-104 | dropped exactly when validation fails, with its reason and the cache untouched; forwarded exactly when the device has no entry or the reading moved by more than the tolerance; a forward sets only that device's entry to the coerced cpu, then requests a QoS AT_LEAST_ONCE publish of the original message on `iot/metrics/cpu` and records the transport's answer; a suppressed reading leaves the cache untouched |
| `Subscriber.NonDictionaryIsDropped` | src/subscriber.py:57-59 | a non-dict payload is dropped and the cache is unchanged |
| `Subscriber.MissingFieldIsDropped` | src/subscriber.py:61-63 | a dict missing `device_name`, `cpu` or `timestamp` is dropped and the cache is unchanged |
| `Subscriber.CoercionFailureIsDropped` | src/subscriber.py:65-71 | a `cpu` rejected by `float` drops the message with that error and no cache change; otherwise the message is never dropped, since `str` cannot fail |
| `Subscriber.FirstReadingIsForwarded` | src/subscriber.py:73-81 | a valid reading of a device with no entry is always forwarded, and the cache then holds its cpu |
| `Subscriber.ToleranceRule` | src/subscriber.py:77-83 | with entry v, a reading c with abs(v - c) > 0.01 is forwarded and becomes the entry; with abs(v - c) <= 0.01 it is suppressed and nothing changes |
| `Subscriber.ToleranceBoundary` | src/subscriber.py:77 | a delta of exactly 0.01 is suppressed; a delta of 0.0100001 is forwarded |
| `Subscriber.OnlyTheReadingsDeviceChanges` | src/subscriber.py:73-83 | no device loses its entry, and any entry that changes belongs to the forwarded reading's device |
| `Subscriber.CacheIndependentOfTransport` | src/subscriber.py:79-104 | the cache after a message is the same whatever the transport answers, because the entry is committed before publishing and publish errors are swallowed |
| `Subscriber.FailedForwardStillCommits` | src/subscriber.py:79-104 | after a forward whose publish failed or timed out, a follow-up reading of that device within the tolerance of it is suppressed |
| `Subscriber.RepeatIsSuppressed` | src/subscriber.py:73-83 | handling a message again on the cache its first handling left never forwards and changes nothing |
| `Subscriber.ForwardsOriginalMessage` | src/subscriber.py:81-91 | every forward publishes the message exactly as received, not the coerced reading |
| `Subscriber.StringCpuForwardedAsString` | src/subscriber.py:65-91 | example: a `cpu` sent as the string "12.5" is compared as 12.5 but forwarded as that string |
| `SubscriberRun.Run` | src/subscriber.py:49-83 | one decision per message, and the set of devices with an entry only grows |
| `SubscriberRun.CacheIsBaseline` | src/subscriber.py:73-81 | after any stream, each device's entry is the value of its latest forward, or its initial entry if it was never forwarded |
| `SubscriberRun.KeyPresentIffForwarded` | src/subscriber.py:49-81 | from the empty cache, a device has an entry if and only if one of its readings was forwarded, and the entry is the latest forwarded value |
| `SubscriberRun.DecisionsFollowBaseline` | src/subscriber.py:73-83 | each valid reading in a stream is forwarded if and only if it changes, by the tolerance rule, from the latest forward of its device before it |
| `SubscriberRun.RepeatedMessageForwardsAtMostOnce` | src/subscriber.py:73-83 | the same message delivered several times in a row is forwarded only on its first delivery, whatever the transport answers, and the final cache is the one after the first delivery |
| `SubscriberRun.RedeliveryAfterOtherReadingForwardsAgain` | src/subscriber.py:77-81 | example: d1 at 1.0, then 2.0, then 1.0 again forwards all three, because a redelivery is compared with the device's latest forward, not with its own earlier delivery |
| `SubscriberRun.RedeliveryNearLatestForwardIsSuppressed` | src/subscriber.py:77-83 | example: d1 at 1.0, then 2.0, then 1.005, then 1.0 again forwards the first three and suppresses the redelivery, which is within the tolerance of the latest forward 1.005 |
| `SubscriberRun.EndToEndScenario` | src/subscriber.py:51-83 | d1 at 12.3 is forwarded, 12.305 suppressed, 45.0 forwarded, a message without `cpu` dropped, and 45.0 again suppressed |
| `LegacySubscriber.Callback` | zip-build/greengrass-cpu-filter/src/subscriber.py:50-67 | AttributeError is raised exactly for a non-dict; an absent or None `device_name` or `cpu` is ignored; a list or dict `device_name` raises TypeError; the entry changes exactly when the stored value differs from `cpu` under Python `!=`, and becomes `cpu` as received; it reports no change exactly when the two compare equal; every other path leaves the cache unchanged |
| `LegacySubscriber.InvalidPayloadIsIgnored` | zip-build/greengrass-cpu-filter/src/subscriber.py:53-58 | a dict whose `device_name` or `cpu` is absent or None is ignored with no cache change |
| `LegacySubscriber.OnlyDeviceAndCpuMatter` | zip-build/greengrass-cpu-filter/src/subscriber.py:52-58 | two dicts that agree on `device_name` and `cpu` are handled identically, so `timestamp` is not required |
| `LegacySubscriber.FirstReadingIsStored` | zip-build/greengrass-cpu-filter/src/subscriber.py:60-65 | a device with no entry gets its non-None `cpu` stored, because None differs from it |
| `LegacySubscriber.ExactInequalityRule` | zip-build/greengrass-cpu-filter/src/subscriber.py:62-67 | with a stored value, the entry changes if and only if `cpu` differs from it under Python `!=`; otherwise nothing changes |
| `LegacySubscriber.OnlyTheDeviceChanges` | zip-build/greengrass-cpu-filter/src/subscriber.py:60-67 | no entry is removed, and the only entry that can change is the payload's device, set to `cpu` exactly as received |
| `LegacySubscriber.CallbackIdempotent` | zip-build/greengrass-cpu-filter/src/subscriber.py:62-67 | handling a payload twice leaves the cache that handling it once leaves, and the second time reports no change |
| `LegacySubscriber.ExactRuleExamples` | zip-build/greengrass-cpu-filter/src/subscriber.py:62-67 | 12.305 after 12.3 is a change under the exact rule; True after 1 is not |

## Left out

- Greengrass IPC transport: connecting, subscribing, `MyStreamHandler`'s
  JSON/binary dispatch and its catch-all, stream error and close handlers,
  and `cleanup` are foreign SDK calls. A publish is modelled only by its request
  and the transport's answer. Before `handle_message` runs, the stream handler
  skips any falsy JSON message (`0`, `false`, `null`, `""`, `[]`, `{}`) and any
  empty binary payload. A decoded binary `{}` does reach `handle_message`. These
  checks belong to the dispatch and are not modelled. Each message they skip
  would be dropped by `handle_message` with the cache unchanged, so skipping it
  changes neither the cache nor the forwarding decision.
- Decoding bytes into JSON (`json.loads`, `.decode()`) is transport work. Both
  versions are modelled from the decoded payload on.
- The publishers (`src/publisher.py` and the zip-build copy) only wrap the IPC
  publish call. `src/main.py` samples CPU with `psutil`, stamps times, sleeps,
  and runs the threads. None of this is modelled. Only its message shape is
  used, by `Subscriber.Serialize`.
- Concurrency: the source takes no lock. The read at src/subscriber.py:73 and the
  write at src/subscriber.py:79 are not atomic against another thread. The model assumes that
  messages are handled one at a time, as the IPC stream delivers them.
- IEEE-754 floats: readings are reals. `float("nan")` and `float("inf")` are
  not representable. The parse function returns only finite reals. The 0.01
  boundary is exact here, while Python compares against the nearest double.
  `float` of an integer too large for a double raises OverflowError, which
  `handle_message` does not catch. Integers here are unbounded reals, so that
  path does not exist in the model.
- Python ints and floats are both `Num`. In the legacy filter they compare
  equal, as in Python. `str(12)` and `str(12.0)` differ in Python. Here both
  come from the `repr` parameter applied to `Num(12.0)`.
- Logging has no effect on behaviour and is not modelled. The `timestamp` is
  coerced and then only logged. It is part of the reading but affects no
  decision.
- `src/utils/typings.py` only declares the message shape, which `Reading`
  mirrors. It has no behaviour.
