/** The earlier variant of the subscriber, shipped in the zip build. It reads
    `device_name` and `cpu` with `dict.get`, refuses only a None (or absent)
    value, and stores `cpu` uncoerced whenever it differs from the stored value
    under Python's exact `!=`. Its publish call is commented out, so the only
    effect of a message is on the cache. */
module LegacySubscriber {
  import opened Wrappers
  import opened PyJson
  import Subscriber

  const DeviceNameField := Subscriber.DeviceNameField
  const CpuField := Subscriber.CpuField

  /** The last `cpu` value seen per device, exactly as it was received; keys
      are identified the way a Python dict identifies them. */
  type Cache = map<Key, Json>

  datatype Outcome =
    | InvalidPayload
    | NoChange
    | Changed
    | Raised(error: PyError)

  datatype Step = Step(cache: Cache, outcome: Outcome)

  /** `payload.get(name)`: an absent key reads as None. */
  function Get(fields: map<string, Json>, name: string): Json
  {
    if name in fields then fields[name] else Null
  }

  /** `cache.get(key)`: an absent device reads as None. */
  function LastCpu(cache: Cache, key: Key): Json
  {
    if key in cache then cache[key] else Null
  }

  /** The callback on one decoded payload. A payload that is not a dict has no
      `get` and raises AttributeError; a list or dict `device_name` cannot be
      looked up and raises TypeError. Neither error touches the cache. */
  function Callback(cache: Cache, payload: Json): (r: Step)
    ensures r.outcome == Raised(AttributeError) <==> !payload.Obj?
    ensures r.outcome == InvalidPayload <==>
              payload.Obj? && (Get(payload.fields, DeviceNameField) == Null || Get(payload.fields, CpuField) == Null)
    ensures r.outcome == Raised(TypeError) <==>
              && payload.Obj? && Get(payload.fields, DeviceNameField) != Null && Get(payload.fields, CpuField) != Null
              && HashKey(Get(payload.fields, DeviceNameField)).None?
    ensures r.outcome == Changed <==>
              && payload.Obj? && Get(payload.fields, DeviceNameField) != Null && Get(payload.fields, CpuField) != Null
              && HashKey(Get(payload.fields, DeviceNameField)).Some?
              && !PyEq(LastCpu(cache, HashKey(Get(payload.fields, DeviceNameField)).value), Get(payload.fields, CpuField))
    ensures r.outcome == NoChange <==>
              && payload.Obj? && Get(payload.fields, DeviceNameField) != Null && Get(payload.fields, CpuField) != Null
              && HashKey(Get(payload.fields, DeviceNameField)).Some?
              && PyEq(LastCpu(cache, HashKey(Get(payload.fields, DeviceNameField)).value), Get(payload.fields, CpuField))
    ensures r.outcome == Changed ==>
              r.cache == cache[HashKey(payload.fields[DeviceNameField]).value := payload.fields[CpuField]]
    ensures r.outcome != Changed ==> r.cache == cache
  {
    if !payload.Obj? then Step(cache, Raised(AttributeError))
    else
      var device := Get(payload.fields, DeviceNameField);
      var cpu := Get(payload.fields, CpuField);
      if device == Null || cpu == Null then Step(cache, InvalidPayload)
      else
        match HashKey(device)
        case None => Step(cache, Raised(TypeError))
        case Some(key) =>
          if !PyEq(LastCpu(cache, key), cpu) then Step(cache[key := cpu], Changed)
          else Step(cache, NoChange)
  }

  /** A payload whose `device_name` or `cpu` is absent or None leaves the cache
      unchanged; `timestamp` is never looked at. */
  lemma InvalidPayloadIsIgnored(cache: Cache, payload: Json)
    requires payload.Obj?
    requires DeviceNameField !in payload.fields || payload.fields[DeviceNameField] == Null
             || CpuField !in payload.fields || payload.fields[CpuField] == Null
    ensures Callback(cache, payload) == Step(cache, InvalidPayload)
  {
  }

  /** Only `device_name` and `cpu` matter: two dicts that agree on those two
      keys (a `timestamp` present in one and absent in the other, say) are
      handled identically. */
  lemma OnlyDeviceAndCpuMatter(cache: Cache, payload: Json, other: Json)
    requires payload.Obj? && other.Obj?
    requires Get(payload.fields, DeviceNameField) == Get(other.fields, DeviceNameField)
    requires Get(payload.fields, CpuField) == Get(other.fields, CpuField)
    ensures Callback(cache, payload) == Callback(cache, other)
  {
  }

  /** The first reading of a device is stored, because None differs from any
      `cpu` that is not None. */
  lemma FirstReadingIsStored(cache: Cache, payload: Json)
    requires payload.Obj? && DeviceNameField in payload.fields && CpuField in payload.fields
    requires payload.fields[DeviceNameField] != Null && payload.fields[CpuField] != Null
    requires HashKey(payload.fields[DeviceNameField]).Some?
    requires HashKey(payload.fields[DeviceNameField]).value !in cache
    ensures var r := Callback(cache, payload);
            var key := HashKey(payload.fields[DeviceNameField]).value;
            r.outcome == Changed && key in r.cache && r.cache[key] == payload.fields[CpuField]
  {
    PyEqNull(payload.fields[CpuField]);
  }

  /** With a stored value, the entry is replaced exactly when the new `cpu`
      differs under Python's `!=`, so 12.3 and 12.305 are different readings and
      an equal reading (1 after True, say) changes nothing. */
  lemma ExactInequalityRule(cache: Cache, payload: Json)
    requires payload.Obj? && DeviceNameField in payload.fields && CpuField in payload.fields
    requires payload.fields[DeviceNameField] != Null && payload.fields[CpuField] != Null
    requires HashKey(payload.fields[DeviceNameField]).Some?
    requires HashKey(payload.fields[DeviceNameField]).value in cache
    ensures var r := Callback(cache, payload);
            var key := HashKey(payload.fields[DeviceNameField]).value;
            && (r.outcome == Changed <==> !PyEq(cache[key], payload.fields[CpuField]))
            && (r.outcome == NoChange <==> PyEq(cache[key], payload.fields[CpuField]))
  {
  }

  /** Only the payload's device entry can change, it is set to `cpu` exactly as
      received, and no entry is ever removed. */
  lemma OnlyTheDeviceChanges(cache: Cache, payload: Json)
    ensures var r := Callback(cache, payload);
            && cache.Keys <= r.cache.Keys
            && forall k :: k in r.cache && (k !in cache || r.cache[k] != cache[k]) ==>
                 && payload.Obj? && DeviceNameField in payload.fields && CpuField in payload.fields
                 && HashKey(payload.fields[DeviceNameField]) == Some(k)
                 && r.cache[k] == payload.fields[CpuField]
  {
  }

  /** Handling the same payload twice gives the cache that handling it once
      gives, and the second time reports no change. */
  lemma CallbackIdempotent(cache: Cache, payload: Json)
    ensures var once := Callback(cache, payload);
            var twice := Callback(once.cache, payload);
            twice.cache == once.cache && twice.outcome != Changed
  {
  }

  /** The exact rule treats readings 0.005 apart as a change, where the
      tolerance of the current subscriber would not; and a `cpu` of True after
      1 is no change, because Python compares them equal. */
  lemma ExactRuleExamples()
    ensures var c := map[KeyStr("d1") := Num(12.3)];
            Callback(c, Obj(map[DeviceNameField := Str("d1"), CpuField := Num(12.305)])).outcome == Changed
    ensures var c := map[KeyStr("d1") := Num(1.0)];
            Callback(c, Obj(map[DeviceNameField := Str("d1"), CpuField := Bool(true)])).outcome == NoChange
  {
  }
}
