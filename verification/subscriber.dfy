/** The change-detection filter of the relay's subscriber: it validates an
    untyped bus message, compares its CPU reading with the last value forwarded
    for the same device, and forwards the message to IoT Core only when the
    reading moved by more than a fixed tolerance. The cache is committed before
    the publish call, and no publish failure ever reaches it. */
module Subscriber {
  import opened Wrappers
  import opened PyJson

  const DeviceNameField: string := "device_name"
  const CpuField: string := "cpu"
  const TimestampField: string := "timestamp"

  /** A reading is a change only if it differs from the last forwarded one by
      strictly more than this. */
  const Tolerance: real := 0.01

  /** The IoT Core topic every forwarded message is published on. */
  const IotCoreTopic: string := "iot/metrics/cpu"

  /** A message after coercion: the shape of DeviceMessage. */
  datatype Reading = Reading(deviceName: string, cpu: real, timestamp: string)

  /** Why a message was dropped before reaching the filter. */
  datatype Rejection =
    | NotADictionary
    | MissingRequiredField
    | InvalidFormat(error: PyError)

  /** The last CPU value forwarded for each device. */
  type Cache = map<string, real>

  /** `cache.get(device)`. */
  function Lookup(cache: Cache, device: string): Option<real>
  {
    if device in cache then Some(cache[device]) else None
  }

  predicate HasRequiredFields(message: Json)
    requires message.Obj?
  {
    && DeviceNameField in message.fields
    && CpuField in message.fields
    && TimestampField in message.fields
  }

  /** Structural validation followed by the `str`/`float`/`str` coercions;
      only `float` can fail, with ValueError or TypeError. */
  function Validate(message: Json, conv: Conversions): (r: Result<Reading, Rejection>)
    ensures r == Failure(NotADictionary) <==> !message.Obj?
    ensures r == Failure(MissingRequiredField) <==> message.Obj? && !HasRequiredFields(message)
    ensures r.Failure? && r.error.InvalidFormat? <==>
              message.Obj? && HasRequiredFields(message) && PyFloat(message.fields[CpuField], conv).Failure?
    ensures r.Failure? && r.error.InvalidFormat? ==>
              r.error.error == PyFloat(message.fields[CpuField], conv).error
    ensures r.Success? ==>
              && message.Obj? && HasRequiredFields(message)
              && r.value.deviceName == PyStr(message.fields[DeviceNameField], conv)
              && PyFloat(message.fields[CpuField], conv) == Success(r.value.cpu)
              && r.value.timestamp == PyStr(message.fields[TimestampField], conv)
  {
    if !message.Obj? then Failure(NotADictionary)
    else if !HasRequiredFields(message) then Failure(MissingRequiredField)
    else
      match PyFloat(message.fields[CpuField], conv)
      case Failure(e) => Failure(InvalidFormat(e))
      case Success(cpu) =>
        Success(Reading(PyStr(message.fields[DeviceNameField], conv), cpu,
                        PyStr(message.fields[TimestampField], conv)))
  }

  /** The wire shape of a reading, as the publisher loop builds it. */
  function Serialize(reading: Reading): Json
  {
    Obj(map[DeviceNameField := Str(reading.deviceName),
            CpuField := Num(reading.cpu),
            TimestampField := Str(reading.timestamp)])
  }

  /** Serializing a reading and validating it again gives the reading back,
      whatever the text conversions are. */
  lemma ValidateSerialize(reading: Reading, conv: Conversions)
    ensures Validate(Serialize(reading), conv) == Success(reading)
  {
    var fields := Serialize(reading).fields;
    assert fields[DeviceNameField] == Str(reading.deviceName);
    assert fields[CpuField] == Num(reading.cpu);
    assert fields[TimestampField] == Str(reading.timestamp);
  }

  /** Validating, re-serializing and validating again changes nothing. */
  lemma ValidationIdempotent(message: Json, conv: Conversions)
    requires Validate(message, conv).Success?
    ensures Validate(Serialize(Validate(message, conv).value), conv) == Validate(message, conv)
  {
    ValidateSerialize(Validate(message, conv).value, conv);
  }

  function Abs(x: real): real
  {
    if x < 0.0 then -x else x
  }

  predicate SignificantChange(last: real, cpu: real)
  {
    Abs(last - cpu) > Tolerance
  }

  /** The decision rule: forward when nothing was forwarded before, or when the
      reading is more than the tolerance away from the last forwarded value. */
  predicate ChangesFrom(last: Option<real>, cpu: real)
  {
    last.None? || SignificantChange(last.value, cpu)
  }

  /** The delivery guarantee a publish asks for; the subscriber only asks for
      at-least-once. */
  datatype Qos = AtLeastOnce

  datatype PublishRequest = PublishRequest(topic: string, qos: Qos, payload: Json)

  /** What the IoT Core transport does with a publish request: acknowledge it
      within five seconds, time out, fail the operation, or fail before the
      request is sent. */
  datatype TransportAnswer = Acknowledged | TimedOut | PublishFailed | RequestFailed

  /** A publish that was attempted and how the transport answered it; the
      answer is logged and never raised. */
  datatype Attempt = Attempt(request: PublishRequest, answer: TransportAnswer)
  {
    predicate Failed()
    {
      answer != Acknowledged
    }
  }

  /** Requests a QoS AT_LEAST_ONCE publish of the message itself, not the
      coerced reading, on the IoT Core topic, and records the transport's
      answer. The answer is swallowed: a timeout or error is never raised. */
  function PublishToIotCore(message: Json, answer: TransportAnswer): Attempt
  {
    Attempt(PublishRequest(IotCoreTopic, AtLeastOnce, message), answer)
  }

  datatype Decision =
    | Dropped(why: Rejection)
    | Suppressed(reading: Reading)
    | Forwarded(reading: Reading, attempt: Attempt)

  datatype Step = Step(cache: Cache, decision: Decision)

  /** One incoming message: validate it, decide, and on a change commit the new
      value to the cache first and publish second. `answer` is how the transport
      would answer a publish; it is consulted only when the message is forwarded. */
  function HandleMessage(cache: Cache, message: Json, conv: Conversions, answer: TransportAnswer): (r: Step)
    ensures r.decision.Dropped? <==> Validate(message, conv).Failure?
    ensures r.decision.Dropped? ==> r.decision.why == Validate(message, conv).error && r.cache == cache
    ensures !r.decision.Dropped? ==> r.decision.reading == Validate(message, conv).value
    ensures r.decision.Forwarded? <==>
              !r.decision.Dropped?
              && ChangesFrom(Lookup(cache, r.decision.reading.deviceName), r.decision.reading.cpu)
    ensures r.decision.Forwarded? ==>
              && r.cache == cache[r.decision.reading.deviceName := r.decision.reading.cpu]
              && r.decision.attempt.request == PublishRequest(IotCoreTopic, AtLeastOnce, message)
              && r.decision.attempt.answer == answer
    ensures r.decision.Suppressed? ==> r.cache == cache
  {
    match Validate(message, conv)
    case Failure(why) => Step(cache, Dropped(why))
    case Success(reading) =>
      if ChangesFrom(Lookup(cache, reading.deviceName), reading.cpu) then
        var committed := cache[reading.deviceName := reading.cpu];
        Step(committed, Forwarded(reading, PublishToIotCore(message, answer)))
      else
        Step(cache, Suppressed(reading))
  }

  /** A payload that is not a dictionary is dropped without touching the cache. */
  lemma NonDictionaryIsDropped(cache: Cache, message: Json, conv: Conversions, answer: TransportAnswer)
    requires !message.Obj?
    ensures HandleMessage(cache, message, conv, answer) == Step(cache, Dropped(NotADictionary))
  {
  }

  /** A dictionary lacking `device_name`, `cpu` or `timestamp` is dropped without
      touching the cache. */
  lemma MissingFieldIsDropped(cache: Cache, message: Json, conv: Conversions, answer: TransportAnswer)
    requires message.Obj?
    requires DeviceNameField !in message.fields || CpuField !in message.fields || TimestampField !in message.fields
    ensures HandleMessage(cache, message, conv, answer) == Step(cache, Dropped(MissingRequiredField))
  {
  }

  /** A `cpu` that `float` rejects drops the message without touching the cache;
      `device_name` and `timestamp` always coerce, because `str` never fails. */
  lemma CoercionFailureIsDropped(cache: Cache, message: Json, conv: Conversions, answer: TransportAnswer)
    requires message.Obj? && HasRequiredFields(message)
    ensures PyFloat(message.fields[CpuField], conv).Failure? ==>
              HandleMessage(cache, message, conv, answer)
                == Step(cache, Dropped(InvalidFormat(PyFloat(message.fields[CpuField], conv).error)))
    ensures PyFloat(message.fields[CpuField], conv).Success? ==>
              !HandleMessage(cache, message, conv, answer).decision.Dropped?
  {
  }

  /** The first valid reading of a device is always forwarded, and the cache
      then holds its value. */
  lemma FirstReadingIsForwarded(cache: Cache, message: Json, conv: Conversions, answer: TransportAnswer)
    requires Validate(message, conv).Success?
    requires Validate(message, conv).value.deviceName !in cache
    ensures var r := HandleMessage(cache, message, conv, answer);
            var reading := Validate(message, conv).value;
            && r.decision.Forwarded?
            && reading.deviceName in r.cache
            && r.cache[reading.deviceName] == reading.cpu
  {
  }

  /** With a previous value `v`, a reading `c` is forwarded and becomes the new
      value exactly when |v - c| > 0.01; otherwise it is suppressed and the cache
      is untouched. */
  lemma ToleranceRule(cache: Cache, message: Json, conv: Conversions, answer: TransportAnswer)
    requires Validate(message, conv).Success?
    requires Validate(message, conv).value.deviceName in cache
    ensures var r := HandleMessage(cache, message, conv, answer);
            var reading := Validate(message, conv).value;
            var v := cache[reading.deviceName];
            && (Abs(v - reading.cpu) > Tolerance ==>
                  r.decision.Forwarded? && r.cache == cache[reading.deviceName := reading.cpu])
            && (Abs(v - reading.cpu) <= Tolerance ==>
                  r == Step(cache, Suppressed(reading)))
  {
  }

  /** Only the reading's own device entry can change; every other device keeps
      its entry, and no device ever loses one. */
  lemma OnlyTheReadingsDeviceChanges(cache: Cache, message: Json, conv: Conversions, answer: TransportAnswer)
    ensures var r := HandleMessage(cache, message, conv, answer);
            && cache.Keys <= r.cache.Keys
            && forall d :: Lookup(r.cache, d) != Lookup(cache, d) ==>
                 r.decision.Forwarded? && d == r.decision.reading.deviceName
  {
  }

  /** The cache a message leaves behind does not depend on how the transport
      answers the publish: the value is committed before publishing, and no
      timeout or error rolls it back. */
  lemma CacheIndependentOfTransport(cache: Cache, message: Json, conv: Conversions,
                                    answer1: TransportAnswer, answer2: TransportAnswer)
    ensures HandleMessage(cache, message, conv, answer1).cache == HandleMessage(cache, message, conv, answer2).cache
  {
  }

  /** After a forward whose publish failed, a follow-up reading for the same
      device within the tolerance of the forwarded one (an identical reading
      in particular) is suppressed: a failed forward still commits. */
  lemma FailedForwardStillCommits(cache: Cache, message: Json, next: Json, conv: Conversions,
                                  answer: TransportAnswer, nextAnswer: TransportAnswer)
    requires HandleMessage(cache, message, conv, answer).decision.Forwarded?
    requires HandleMessage(cache, message, conv, answer).decision.attempt.Failed()
    requires Validate(next, conv).Success?
    requires Validate(next, conv).value.deviceName == Validate(message, conv).value.deviceName
    requires !SignificantChange(Validate(message, conv).value.cpu, Validate(next, conv).value.cpu)
    ensures var first := HandleMessage(cache, message, conv, answer);
            HandleMessage(first.cache, next, conv, nextAnswer) == Step(first.cache, Suppressed(Validate(next, conv).value))
  {
  }

  /** Handling a message a second time, on the cache its first handling left,
      never forwards and changes nothing: the filter is idempotent. */
  lemma RepeatIsSuppressed(cache: Cache, message: Json, conv: Conversions,
                           answer: TransportAnswer, again: TransportAnswer)
    ensures var first := HandleMessage(cache, message, conv, answer);
            var second := HandleMessage(first.cache, message, conv, again);
            && !second.decision.Forwarded?
            && second.cache == first.cache
  {
  }

  /** Every forward publishes the message exactly as received, not the coerced
      reading built from it. */
  lemma ForwardsOriginalMessage(cache: Cache, message: Json, conv: Conversions, answer: TransportAnswer)
    requires HandleMessage(cache, message, conv, answer).decision.Forwarded?
    ensures HandleMessage(cache, message, conv, answer).decision.attempt.request.payload == message
  {
  }

  /** A `cpu` sent as the string "12.5" is forwarded as that string, not as the
      coerced number. */
  lemma StringCpuForwardedAsString(conv: Conversions)
    requires conv.parseFloat("12.5") == Some(12.5)
    ensures var message := Obj(map[DeviceNameField := Str("d1"), CpuField := Str("12.5"),
                                   TimestampField := Str("t1")]);
            var r := HandleMessage(map[], message, conv, Acknowledged);
            && r.decision == Forwarded(Reading("d1", 12.5, "t1"), PublishToIotCore(message, Acknowledged))
            && r.decision.attempt.request.payload.fields[CpuField] == Str("12.5")
  {
    var message := Obj(map[DeviceNameField := Str("d1"), CpuField := Str("12.5"),
                           TimestampField := Str("t1")]);
    assert message.fields[CpuField] == Str("12.5");
    assert message.fields[DeviceNameField] == Str("d1");
    assert message.fields[TimestampField] == Str("t1");
  }

  /** The boundary of the tolerance: a delta of exactly 0.01 is suppressed, a
      delta of 0.0100001 is forwarded. */
  lemma ToleranceBoundary(conv: Conversions)
    ensures HandleMessage(map["d1" := 12.3], Serialize(Reading("d1", 12.31, "t2")), conv, Acknowledged).decision.Suppressed?
    ensures HandleMessage(map["d1" := 12.3], Serialize(Reading("d1", 12.3100001, "t2")), conv, Acknowledged).decision.Forwarded?
  {
    ValidateSerialize(Reading("d1", 12.31, "t2"), conv);
    ValidateSerialize(Reading("d1", 12.3100001, "t2"), conv);
  }
}
