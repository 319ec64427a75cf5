/** The subscriber over a whole stream of messages, delivered one at a time. The
    cache is always the last forwarded value per device: a device has an entry
    exactly when one of its readings was forwarded, and every forward is a
    significant change from the one before it. */
module SubscriberRun {
  import opened Wrappers
  import opened PyJson
  import opened Subscriber

  /** A delivered message and how the transport would answer its publish. */
  datatype Arrival = Arrival(message: Json, answer: TransportAnswer)

  datatype Trace = Trace(cache: Cache, decisions: seq<Decision>)

  /** Hands every arrival, in order, to `HandleMessage`. */
  function Run(cache: Cache, arrivals: seq<Arrival>, conv: Conversions): (r: Trace)
    ensures |r.decisions| == |arrivals|
    ensures cache.Keys <= r.cache.Keys
    decreases |arrivals|
  {
    if arrivals == [] then Trace(cache, [])
    else
      var prior := Run(cache, arrivals[..|arrivals| - 1], conv);
      var last := arrivals[|arrivals| - 1];
      var step := HandleMessage(prior.cache, last.message, conv, last.answer);
      Trace(step.cache, prior.decisions + [step.decision])
  }

  /** The value of the latest forward for `device` among `decisions`. */
  function LastForwarded(decisions: seq<Decision>, device: string): Option<real>
    decreases |decisions|
  {
    if decisions == [] then None
    else
      var d := decisions[|decisions| - 1];
      if d.Forwarded? && d.reading.deviceName == device then Some(d.reading.cpu)
      else LastForwarded(decisions[..|decisions| - 1], device)
  }

  /** The value a device is compared against after `decisions`, starting from
      `cache`: its latest forward, or else its initial entry. */
  function Baseline(cache: Cache, decisions: seq<Decision>, device: string): Option<real>
  {
    match LastForwarded(decisions, device)
    case Some(v) => Some(v)
    case None => Lookup(cache, device)
  }

  predicate ForwardedAt(decisions: seq<Decision>, i: int, device: string)
  {
    0 <= i < |decisions| && decisions[i].Forwarded? && decisions[i].reading.deviceName == device
  }

  lemma {:induction false} LastForwardedIffForwarded(decisions: seq<Decision>, device: string)
    ensures LastForwarded(decisions, device).Some? <==> exists i :: ForwardedAt(decisions, i, device)
    decreases |decisions|
  {
    if decisions != [] {
      var n := |decisions| - 1;
      var init := decisions[..n];
      LastForwardedIffForwarded(init, device);
      if ForwardedAt(decisions, n, device) {
        assert LastForwarded(decisions, device).Some?;
      }
      if exists i :: ForwardedAt(init, i, device) {
        var i :| ForwardedAt(init, i, device);
        assert ForwardedAt(decisions, i, device);
      }
      if exists i :: ForwardedAt(decisions, i, device) {
        var i :| ForwardedAt(decisions, i, device);
        if i < n {
          assert ForwardedAt(init, i, device);
        }
      }
    }
  }

  /** After any run, the cache holds for each device the value of its latest
      forward, or its initial entry if it was never forwarded. */
  lemma {:induction false} CacheIsBaseline(cache: Cache, arrivals: seq<Arrival>, conv: Conversions, device: string)
    ensures Lookup(Run(cache, arrivals, conv).cache, device) == Baseline(cache, Run(cache, arrivals, conv).decisions, device)
    decreases |arrivals|
  {
    if arrivals != [] {
      var n := |arrivals| - 1;
      CacheIsBaseline(cache, arrivals[..n], conv, device);
      var prior := Run(cache, arrivals[..n], conv);
      var last := arrivals[n];
      var step := HandleMessage(prior.cache, last.message, conv, last.answer);
      var t := Run(cache, arrivals, conv);
      assert t == Trace(step.cache, prior.decisions + [step.decision]);
      assert t.decisions[..n] == prior.decisions;
    }
  }

  /** From the empty cache a device has an entry exactly when one of its
      readings was forwarded, and the entry is its latest forwarded value. */
  lemma KeyPresentIffForwarded(arrivals: seq<Arrival>, conv: Conversions)
    ensures var t := Run(map[], arrivals, conv);
            forall d :: (d in t.cache <==> exists i :: ForwardedAt(t.decisions, i, d))
    ensures var t := Run(map[], arrivals, conv);
            forall d :: d in t.cache ==> Some(t.cache[d]) == LastForwarded(t.decisions, d)
  {
    var t := Run(map[], arrivals, conv);
    forall d
      ensures d in t.cache <==> exists i :: ForwardedAt(t.decisions, i, d)
    {
      LastForwardedIffForwarded(t.decisions, d);
      CacheIsBaseline(map[], arrivals, conv, d);
    }
    forall d | d in t.cache
      ensures Some(t.cache[d]) == LastForwarded(t.decisions, d)
    {
      CacheIsBaseline(map[], arrivals, conv, d);
    }
  }

  /** Running a prefix of the arrivals gives a prefix of the decisions. */
  lemma {:induction false} RunPrefix(cache: Cache, arrivals: seq<Arrival>, conv: Conversions, i: nat)
    requires i <= |arrivals|
    ensures Run(cache, arrivals[..i], conv).decisions == Run(cache, arrivals, conv).decisions[..i]
    decreases |arrivals|
  {
    if i < |arrivals| {
      var n := |arrivals| - 1;
      assert arrivals[..n][..i] == arrivals[..i];
      RunPrefix(cache, arrivals[..n], conv, i);
    } else {
      assert arrivals[..i] == arrivals;
    }
  }

  /** The `i`-th decision is `HandleMessage` on the cache the first `i`
      arrivals left. */
  lemma DecisionAt(cache: Cache, arrivals: seq<Arrival>, conv: Conversions, i: nat)
    requires i < |arrivals|
    ensures Run(cache, arrivals, conv).decisions[i]
              == HandleMessage(Run(cache, arrivals[..i], conv).cache, arrivals[i].message, conv, arrivals[i].answer).decision
  {
    RunPrefix(cache, arrivals, conv, i + 1);
    assert arrivals[..i + 1][..i] == arrivals[..i];
  }

  /** Every valid reading in a run is forwarded exactly when it changes from its
      device's baseline, the latest forward before it: consecutive forwards of
      one device differ by more than the tolerance, and a suppressed reading is
      within the tolerance of the value last forwarded. */
  lemma DecisionsFollowBaseline(cache: Cache, arrivals: seq<Arrival>, conv: Conversions)
    ensures var ds := Run(cache, arrivals, conv).decisions;
            forall i :: 0 <= i < |ds| && !ds[i].Dropped? ==>
              (ds[i].Forwarded? <==> ChangesFrom(Baseline(cache, ds[..i], ds[i].reading.deviceName), ds[i].reading.cpu))
  {
    var ds := Run(cache, arrivals, conv).decisions;
    forall i | 0 <= i < |ds| && !ds[i].Dropped?
      ensures ds[i].Forwarded? <==> ChangesFrom(Baseline(cache, ds[..i], ds[i].reading.deviceName), ds[i].reading.cpu)
    {
      DecisionAt(cache, arrivals, conv, i);
      RunPrefix(cache, arrivals, conv, i);
      CacheIsBaseline(cache, arrivals[..i], conv, ds[i].reading.deviceName);
    }
  }

  /** The same message delivered several times in a row is forwarded at most
      once, on its first delivery, whatever the transport answers. */
  lemma {:induction false} RepeatedMessageForwardsAtMostOnce(cache: Cache, arrivals: seq<Arrival>, conv: Conversions)
    requires forall i :: 0 <= i < |arrivals| ==> arrivals[i].message == arrivals[0].message
    ensures var ds := Run(cache, arrivals, conv).decisions;
            forall i :: 1 <= i < |ds| ==> !ds[i].Forwarded?
    ensures arrivals != [] ==>
              Run(cache, arrivals, conv).cache == HandleMessage(cache, arrivals[0].message, conv, arrivals[0].answer).cache
    decreases |arrivals|
  {
    if |arrivals| > 1 {
      var n := |arrivals| - 1;
      var init := arrivals[..n];
      RepeatedMessageForwardsAtMostOnce(cache, init, conv);
      var prior := Run(cache, init, conv);
      var first := HandleMessage(cache, arrivals[0].message, conv, arrivals[0].answer);
      assert prior.cache == first.cache;
      RepeatIsSuppressed(cache, arrivals[0].message, conv, arrivals[0].answer, arrivals[n].answer);
      assert Run(cache, arrivals, conv).decisions == prior.decisions + [HandleMessage(first.cache, arrivals[n].message, conv, arrivals[n].answer).decision];
    } else if |arrivals| == 1 {
      assert arrivals[..0] == [];
    }
  }

  /** A redelivery is compared with its device's latest forward, not with its
      own earlier delivery, so once a reading more than the tolerance away has
      been forwarded it can be forwarded again: d1 at 1.0, then 2.0, then 1.0
      again forwards all three, since each moved by 1.0 from the value forwarded
      before it. */
  lemma RedeliveryAfterOtherReadingForwardsAgain(conv: Conversions)
    ensures var a := Serialize(Reading("d1", 1.0, "t1"));
            var b := Serialize(Reading("d1", 2.0, "t2"));
            var t := Run(map[], [Arrival(a, Acknowledged), Arrival(b, Acknowledged), Arrival(a, Acknowledged)], conv);
            && t.decisions[0].Forwarded? && t.decisions[1].Forwarded? && t.decisions[2].Forwarded?
            && t.cache == map["d1" := 1.0]
  {
    var a := Serialize(Reading("d1", 1.0, "t1"));
    var b := Serialize(Reading("d1", 2.0, "t2"));
    ValidateSerialize(Reading("d1", 1.0, "t1"), conv);
    ValidateSerialize(Reading("d1", 2.0, "t2"), conv);
    var arrivals := [Arrival(a, Acknowledged), Arrival(b, Acknowledged), Arrival(a, Acknowledged)];
    var c0: Cache := map[];
    var s1 := HandleMessage(c0, a, conv, Acknowledged);
    var s2 := HandleMessage(s1.cache, b, conv, Acknowledged);
    var s3 := HandleMessage(s2.cache, a, conv, Acknowledged);
    assert s1.cache == map["d1" := 1.0];
    assert s2.cache == map["d1" := 2.0];
    assert arrivals[..0] == [];
    assert Run(c0, arrivals[..1], conv) == Trace(s1.cache, [s1.decision]);
    assert arrivals[..2][..1] == arrivals[..1];
    assert Run(c0, arrivals[..2], conv) == Trace(s2.cache, [s1.decision, s2.decision]);
    assert arrivals[..3][..2] == arrivals[..2];
    assert arrivals[..3] == arrivals;
  }

  /** The converse: forwards in between do not make a redelivery forwardable
      unless the latest of them is more than the tolerance away. d1 at 1.0, then
      2.0, then 1.005, then 1.0 again forwards the first three and suppresses the
      redelivery, which is within 0.005 of 1.005. */
  lemma RedeliveryNearLatestForwardIsSuppressed(conv: Conversions)
    ensures var a := Serialize(Reading("d1", 1.0, "t1"));
            var b := Serialize(Reading("d1", 2.0, "t2"));
            var c := Serialize(Reading("d1", 1.005, "t3"));
            var t := Run(map[], [Arrival(a, Acknowledged), Arrival(b, Acknowledged), Arrival(c, Acknowledged), Arrival(a, Acknowledged)], conv);
            && t.decisions[0].Forwarded? && t.decisions[1].Forwarded? && t.decisions[2].Forwarded?
            && t.decisions[3].Suppressed?
            && t.cache == map["d1" := 1.005]
  {
    var a := Serialize(Reading("d1", 1.0, "t1"));
    var b := Serialize(Reading("d1", 2.0, "t2"));
    var c := Serialize(Reading("d1", 1.005, "t3"));
    ValidateSerialize(Reading("d1", 1.0, "t1"), conv);
    ValidateSerialize(Reading("d1", 2.0, "t2"), conv);
    ValidateSerialize(Reading("d1", 1.005, "t3"), conv);
    var arrivals := [Arrival(a, Acknowledged), Arrival(b, Acknowledged), Arrival(c, Acknowledged), Arrival(a, Acknowledged)];
    var c0: Cache := map[];
    var s1 := HandleMessage(c0, a, conv, Acknowledged);
    var s2 := HandleMessage(s1.cache, b, conv, Acknowledged);
    var s3 := HandleMessage(s2.cache, c, conv, Acknowledged);
    var s4 := HandleMessage(s3.cache, a, conv, Acknowledged);
    assert s1.cache == map["d1" := 1.0];
    assert s2.cache == map["d1" := 2.0];
    assert s3.cache == map["d1" := 1.005];
    assert s4.decision.Suppressed?;
    assert arrivals[..0] == [];
    assert Run(c0, arrivals[..1], conv) == Trace(s1.cache, [s1.decision]);
    assert arrivals[..2][..1] == arrivals[..1];
    assert Run(c0, arrivals[..2], conv) == Trace(s2.cache, [s1.decision, s2.decision]);
    assert arrivals[..3][..2] == arrivals[..2];
    assert Run(c0, arrivals[..3], conv) == Trace(s3.cache, [s1.decision, s2.decision, s3.decision]);
    assert arrivals[..4][..3] == arrivals[..3];
    assert arrivals[..4] == arrivals;
  }

  /** A run of the scenario: d1 at 12.3 is forwarded, 12.305 is suppressed,
      45.0 is forwarded, a message without `cpu` is dropped, and 45.0 again is
      suppressed because the dropped message left the cache alone. */
  lemma EndToEndScenario(conv: Conversions)
    ensures var msgs := [
                Serialize(Reading("d1", 12.3, "t1")),
                Serialize(Reading("d1", 12.305, "t2")),
                Serialize(Reading("d1", 45.0, "t3")),
                Obj(map[DeviceNameField := Str("d1"), TimestampField := Str("t4")]),
                Serialize(Reading("d1", 45.0, "t5"))];
            var t := Run(map[], seq(5, i requires 0 <= i < 5 => Arrival(msgs[i], Acknowledged)), conv);
            && t.decisions[0].Forwarded?
            && t.decisions[1].Suppressed?
            && t.decisions[2].Forwarded?
            && t.decisions[3] == Dropped(MissingRequiredField)
            && t.decisions[4].Suppressed?
            && t.cache == map["d1" := 45.0]
  {
    ValidateSerialize(Reading("d1", 12.3, "t1"), conv);
    ValidateSerialize(Reading("d1", 12.305, "t2"), conv);
    ValidateSerialize(Reading("d1", 45.0, "t3"), conv);
    ValidateSerialize(Reading("d1", 45.0, "t5"), conv);
    var msgs := [
        Serialize(Reading("d1", 12.3, "t1")),
        Serialize(Reading("d1", 12.305, "t2")),
        Serialize(Reading("d1", 45.0, "t3")),
        Obj(map[DeviceNameField := Str("d1"), TimestampField := Str("t4")]),
        Serialize(Reading("d1", 45.0, "t5"))];
    var arrivals := seq(5, i requires 0 <= i < 5 => Arrival(msgs[i], Acknowledged));
    var c0: Cache := map[];
    var s1 := HandleMessage(c0, msgs[0], conv, Acknowledged);
    var s2 := HandleMessage(s1.cache, msgs[1], conv, Acknowledged);
    var s3 := HandleMessage(s2.cache, msgs[2], conv, Acknowledged);
    var s4 := HandleMessage(s3.cache, msgs[3], conv, Acknowledged);
    var s5 := HandleMessage(s4.cache, msgs[4], conv, Acknowledged);
    assert s1.cache == map["d1" := 12.3];
    assert s2.cache == map["d1" := 12.3];
    assert s3.cache == map["d1" := 45.0];
    assert s4.cache == map["d1" := 45.0];
    assert arrivals[..0] == [];
    assert Run(c0, arrivals[..1], conv) == Trace(s1.cache, [s1.decision]);
    assert arrivals[..2][..1] == arrivals[..1];
    assert Run(c0, arrivals[..2], conv) == Trace(s2.cache, [s1.decision, s2.decision]);
    assert arrivals[..3][..2] == arrivals[..2];
    assert Run(c0, arrivals[..3], conv) == Trace(s3.cache, [s1.decision, s2.decision, s3.decision]);
    assert arrivals[..4][..3] == arrivals[..3];
    assert Run(c0, arrivals[..4], conv) == Trace(s4.cache, [s1.decision, s2.decision, s3.decision, s4.decision]);
    assert arrivals[..5][..4] == arrivals[..4];
    assert arrivals[..5] == arrivals;
  }
}
