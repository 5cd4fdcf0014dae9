/**
 The alert dispatcher: for one sensor reading it visits every registered
 device and, for each of the three metrics in turn, classifies the reading,
 asks the debouncer, and on a positive decision queues one message for that
 device and records the decision. Delivery of the queued batch is not part of
 this model; the batch is returned.
 */
module Monitor {
  import opened Thresholds
  import opened Debounce
  import opened Registry

  /** One full sensor reading. */
  datatype Reading = Reading(temperature: real, humidity: real, waterTemp: real)
  {
    function ValueOf(m: Metric): real
    {
      match m
      case Temperature => temperature
      case Humidity => humidity
      case WaterTemp => waterTemp
    }
  }

  /** The wording of a message: the Critical alarm, or the recovery wording used for every other status. */
  datatype Kind = Alarm | Recovery

  /** A push message, reduced to its recipient, its wording and its structured data. */
  datatype Message = Message(to: Token, metric: Metric, kind: Kind, value: real, status: Status)

  /** A message reports the reading it was built from, its classification, and the matching wording. */
  predicate Describes(msg: Message, reading: Reading)
  {
    && msg.value == reading.ValueOf(msg.metric)
    && msg.status == GetStatus(msg.metric, msg.value)
    && (msg.kind == Alarm <==> msg.status == Critical)
  }

  /** Whether some message of `msgs` goes to `token` about metric `m`. */
  predicate Notifies(msgs: seq<Message>, token: Token, m: Metric)
  {
    exists k :: 0 <= k < |msgs| && msgs[k].to == token && msgs[k].metric == m
  }

  /** The alarm wording is chosen exactly for a Critical status. */
  function KindOf(s: Status): (k: Kind)
    ensures k == Alarm <==> s == Critical
  {
    if s == Critical then Alarm else Recovery
  }

  /** The debouncer's decision for metric `m` of device `d` on `reading` at `now`. */
  function Decide(d: Device, m: Metric, reading: Reading, now: int): Decision
  {
    Step(d.StateOf(m), GetStatus(m, reading.ValueOf(m)), now)
  }

  /** The message queued for metric `m` of the device holding `token`. */
  function Notice(token: Token, m: Metric, reading: Reading): (msg: Message)
    ensures msg.to == token && msg.metric == m && Describes(msg, reading)
  {
    var value := reading.ValueOf(m);
    var status := GetStatus(m, value);
    Message(token, m, KindOf(status), value, status)
  }

  /**
   The messages a visit of metric `m` of device `d` queues, decided from the
   device's state before the reading.
   */
  function Announce(d: Device, m: Metric, reading: Reading, now: int): seq<Message>
  {
    if Decide(d, m, reading, now).notify then [Notice(d.token, m, reading)] else []
  }

  /** A device after a visit, with the messages queued for it. */
  datatype Checked = Checked(device: Device, messages: seq<Message>)

  /** Visits one metric of one device: decide, queue, record. */
  function CheckMetric(d: Device, m: Metric, reading: Reading, now: int): (r: Checked)
    ensures var s := GetStatus(m, reading.ValueOf(m));
      ShouldSendNotification(d.StateOf(m), s, now) ==>
        r.messages == [Notice(d.token, m, reading)] && r.device.StateOf(m) == DebounceState(now, s)
    ensures !ShouldSendNotification(d.StateOf(m), GetStatus(m, reading.ValueOf(m)), now) ==>
      r.messages == [] && r.device == d
    ensures r.device.token == d.token
    ensures forall m' :: m' != m ==> r.device.StateOf(m') == d.StateOf(m')
  {
    var status := GetStatus(m, reading.ValueOf(m));
    var decision := Step(d.StateOf(m), status, now);
    Checked(d.WithState(m, decision.next), if decision.notify then [Notice(d.token, m, reading)] else [])
  }

  /**
   Visits temperature, humidity and water temperature of one device, in that
   order. Threading the device through the three visits gives the same result
   as deciding every metric from the state before the reading: the metrics
   do not influence each other.
   */
  function MonitorDevice(d: Device, reading: Reading, now: int): (r: Checked)
    ensures r.device.token == d.token
    ensures forall m :: r.device.StateOf(m) == Decide(d, m, reading, now).next
    ensures r.messages == Announce(d, Temperature, reading, now) + Announce(d, Humidity, reading, now) + Announce(d, WaterTemp, reading, now)
  {
    var t := CheckMetric(d, Temperature, reading, now);
    var h := CheckMetric(t.device, Humidity, reading, now);
    var w := CheckMetric(h.device, WaterTemp, reading, now);
    assert Announce(t.device, Humidity, reading, now) == Announce(d, Humidity, reading, now);
    assert Announce(h.device, WaterTemp, reading, now) == Announce(d, WaterTemp, reading, now);
    Checked(w.device, t.messages + h.messages + w.messages)
  }

  /** Messages in a concatenation are the messages of either part. */
  lemma NotifiesAppend(a: seq<Message>, b: seq<Message>, token: Token, m: Metric)
    ensures Notifies(a + b, token, m) <==> Notifies(a, token, m) || Notifies(b, token, m)
  {
    if Notifies(a + b, token, m) {
      var k :| 0 <= k < |a + b| && (a + b)[k].to == token && (a + b)[k].metric == m;
      if k >= |a| {
        assert b[k - |a|] == (a + b)[k];
      } else {
        assert a[k] == (a + b)[k];
      }
    }
    if Notifies(a, token, m) {
      var k :| 0 <= k < |a| && a[k].to == token && a[k].metric == m;
      assert (a + b)[k] == a[k];
    }
    if Notifies(b, token, m) {
      var k :| 0 <= k < |b| && b[k].to == token && b[k].metric == m;
      assert (a + b)[k + |a|] == b[k];
    }
  }

  /**
   A visit of one device queues at most three messages, all addressed to that
   device and faithful to the reading.
   */
  lemma DeviceBatch(d: Device, reading: Reading, now: int)
    ensures var msgs := MonitorDevice(d, reading, now).messages;
      && |msgs| <= 3
      && (forall k :: 0 <= k < |msgs| ==> msgs[k].to == d.token && Describes(msgs[k], reading))
  {
    var a, b, c := Announce(d, Temperature, reading, now), Announce(d, Humidity, reading, now), Announce(d, WaterTemp, reading, now);
    var msgs := a + b + c;
    forall k | 0 <= k < |msgs|
      ensures msgs[k].to == d.token && Describes(msgs[k], reading)
    {
      assert msgs[k] in a || msgs[k] in b || msgs[k] in c;
    }
  }

  /** A visit of one device queues a message about metric `m` exactly when the debouncer decides to notify about `m`. */
  lemma DeviceNotifies(d: Device, reading: Reading, now: int, token: Token, m: Metric)
    ensures Notifies(MonitorDevice(d, reading, now).messages, token, m) <==> token == d.token && Decide(d, m, reading, now).notify
  {
    var a, b, c := Announce(d, Temperature, reading, now), Announce(d, Humidity, reading, now), Announce(d, WaterTemp, reading, now);
    NotifiesAppend(a + b, c, token, m);
    NotifiesAppend(a, b, token, m);
    if Decide(d, m, reading, now).notify && token == d.token {
      var x := Announce(d, m, reading, now);
      assert x[0].to == token && x[0].metric == m;
    }
  }

  /** A device after a reading: visited when its token is accepted, untouched otherwise. */
  function Visited(d: Device, reading: Reading, now: int, isPushToken: Token -> bool): (e: Device)
    ensures e.token == d.token
    ensures !isPushToken(d.token) ==> e == d
    ensures isPushToken(d.token) ==> forall m :: e.StateOf(m) == Decide(d, m, reading, now).next
  {
    if isPushToken(d.token) then MonitorDevice(d, reading, now).device else d
  }

  /** The batch of a reading and the registry it leaves behind. */
  datatype Dispatch = Dispatch(devices: seq<Device>, messages: seq<Message>)

  /** Every message goes to a valid registered token and describes the reading. */
  predicate Faithful(msgs: seq<Message>, devices: seq<Device>, reading: Reading, isPushToken: Token -> bool)
  {
    forall k :: 0 <= k < |msgs| ==>
      isPushToken(msgs[k].to) && Registered(devices, msgs[k].to) && Describes(msgs[k], reading)
  }

  /** The first device's messages followed by the faithful batch of the others form a faithful batch. */
  lemma FaithfulCons(devices: seq<Device>, own: seq<Message>, rest: seq<Message>, reading: Reading, isPushToken: Token -> bool)
    requires |devices| > 0
    requires forall k :: 0 <= k < |own| ==>
      own[k].to == devices[0].token && isPushToken(own[k].to) && Describes(own[k], reading)
    requires Faithful(rest, devices[1..], reading, isPushToken)
    ensures Faithful(own + rest, devices, reading, isPushToken)
  {
    RegisteredInTail(devices);
    forall k | 0 <= k < |own + rest|
      ensures isPushToken((own + rest)[k].to) && Registered(devices, (own + rest)[k].to) && Describes((own + rest)[k], reading)
    {
      if k >= |own| {
        assert (own + rest)[k] == rest[k - |own|];
      }
    }
  }

  /** The messages queued for one device: its visit's, or none when its token is not accepted. */
  function Own(d: Device, reading: Reading, now: int, isPushToken: Token -> bool): (msgs: seq<Message>)
    ensures |msgs| <= 3
    ensures forall k :: 0 <= k < |msgs| ==> msgs[k].to == d.token && isPushToken(d.token) && Describes(msgs[k], reading)
  {
    DeviceBatch(d, reading, now);
    if isPushToken(d.token) then MonitorDevice(d, reading, now).messages else []
  }

  /** Dispatching a registry is visiting its first device and then dispatching the others. */
  lemma DispatchCons(devices: seq<Device>, reading: Reading, now: int, isPushToken: Token -> bool, rest: Dispatch)
    requires |devices| > 0
    requires |rest.devices| == |devices[1..]|
    requires forall i :: 0 <= i < |devices[1..]| ==> rest.devices[i] == Visited(devices[1..][i], reading, now, isPushToken)
    requires Faithful(rest.messages, devices[1..], reading, isPushToken)
    requires |rest.messages| <= 3 * |devices[1..]|
    ensures var r := Dispatch([Visited(devices[0], reading, now, isPushToken)] + rest.devices, Own(devices[0], reading, now, isPushToken) + rest.messages);
      && |r.devices| == |devices|
      && (forall i :: 0 <= i < |devices| ==> r.devices[i] == Visited(devices[i], reading, now, isPushToken))
      && Faithful(r.messages, devices, reading, isPushToken)
      && |r.messages| <= 3 * |devices|
  {
    var head := [Visited(devices[0], reading, now, isPushToken)];
    forall i | 0 <= i < |devices|
      ensures (head + rest.devices)[i] == Visited(devices[i], reading, now, isPushToken)
    {
      if i > 0 {
        assert (head + rest.devices)[i] == rest.devices[i - 1];
        assert devices[1..][i - 1] == devices[i];
      }
    }
    FaithfulCons(devices, Own(devices[0], reading, now, isPushToken), rest.messages, reading, isPushToken);
  }

  /**
   Processes one reading for every registered device, in registry order.
   With no devices it returns at once. A device whose token the push service
   does not accept is skipped: no message, no change.
   */
  function MonitorAndNotify(devices: seq<Device>, reading: Reading, now: int, isPushToken: Token -> bool): (r: Dispatch)
    ensures |r.devices| == |devices|
    ensures forall i :: 0 <= i < |devices| ==> r.devices[i] == Visited(devices[i], reading, now, isPushToken)
    ensures Faithful(r.messages, devices, reading, isPushToken)
    ensures |r.messages| <= 3 * |devices|
    decreases |devices|
  {
    if |devices| == 0 then Dispatch([], [])
    else
      var rest := MonitorAndNotify(devices[1..], reading, now, isPushToken);
      DispatchCons(devices, reading, now, isPushToken, rest);
      Dispatch([Visited(devices[0], reading, now, isPushToken)] + rest.devices, Own(devices[0], reading, now, isPushToken) + rest.messages)
  }

  /** The batch of a registry is the first device's messages followed by the batch of the others. */
  lemma MessagesCons(devices: seq<Device>, reading: Reading, now: int, isPushToken: Token -> bool)
    requires |devices| > 0
    ensures MonitorAndNotify(devices, reading, now, isPushToken).messages
      == Own(devices[0], reading, now, isPushToken) + MonitorAndNotify(devices[1..], reading, now, isPushToken).messages
  {
  }

  /** A reading never changes registry membership or order, so tokens stay unique. */
  lemma ReadingKeepsRegistry(devices: seq<Device>, reading: Reading, now: int, isPushToken: Token -> bool)
    ensures var r := MonitorAndNotify(devices, reading, now, isPushToken);
      && GetRegisteredDevices(r.devices) == GetRegisteredDevices(devices)
      && (UniqueTokens(devices) ==> UniqueTokens(r.devices))
  {
    var r := MonitorAndNotify(devices, reading, now, isPushToken);
    var before, after := GetRegisteredDevices(devices), GetRegisteredDevices(r.devices);
    forall i | 0 <= i < |devices|
      ensures after[i] == before[i]
    {
      assert r.devices[i] == Visited(devices[i], reading, now, isPushToken);
    }
  }

  /** A token registered in the tail of a registry is registered in the whole. */
  lemma RegisteredInTail(devices: seq<Device>)
    requires |devices| > 0
    ensures forall t :: Registered(devices[1..], t) ==> Registered(devices, t)
    ensures Registered(devices, devices[0].token)
  {
    forall t | Registered(devices[1..], t)
      ensures Registered(devices, t)
    {
      var i :| 0 <= i < |devices[1..]| && devices[1..][i].token == t;
      assert devices[i + 1].token == t;
    }
  }

  /** A faithful batch has no message for a token that is not registered. */
  lemma UnregisteredGetsNothing(msgs: seq<Message>, devices: seq<Device>, reading: Reading, isPushToken: Token -> bool, token: Token, m: Metric)
    requires Faithful(msgs, devices, reading, isPushToken) && !Registered(devices, token)
    ensures !Notifies(msgs, token, m)
  {
  }

  /** The messages queued for one device are about metric `m` exactly when its token is accepted and the debouncer notifies. */
  lemma OwnNotifies(d: Device, reading: Reading, now: int, isPushToken: Token -> bool, token: Token, m: Metric)
    ensures Notifies(Own(d, reading, now, isPushToken), token, m)
      <==> token == d.token && isPushToken(d.token) && Decide(d, m, reading, now).notify
  {
    DeviceNotifies(d, reading, now, token, m);
  }

  /** Whether a reading should alert device `d` about metric `m`: its token is accepted and the debouncer notifies. */
  predicate Alerted(d: Device, m: Metric, reading: Reading, now: int, isPushToken: Token -> bool)
  {
    isPushToken(d.token) && Decide(d, m, reading, now).notify
  }

  /** The batch of a registry notifies a token about `m` when the first device's messages do or the others' batch does. */
  lemma NotifiesCons(devices: seq<Device>, reading: Reading, now: int, isPushToken: Token -> bool, token: Token, m: Metric)
    requires |devices| > 0
    ensures Notifies(MonitorAndNotify(devices, reading, now, isPushToken).messages, token, m)
      <==> ((token == devices[0].token && Alerted(devices[0], m, reading, now, isPushToken))
        || Notifies(MonitorAndNotify(devices[1..], reading, now, isPushToken).messages, token, m))
  {
    var own := Own(devices[0], reading, now, isPushToken);
    MessagesCons(devices, reading, now, isPushToken);
    NotifiesAppend(own, MonitorAndNotify(devices[1..], reading, now, isPushToken).messages, token, m);
    OwnNotifies(devices[0], reading, now, isPushToken, token, m);
  }

  /**
   With unique tokens, device `i` receives a message about metric `m` exactly
   when its token is accepted and the debouncer decides to notify.
   */
  lemma {:induction false} NotifiedIffDecided(devices: seq<Device>, reading: Reading, now: int, isPushToken: Token -> bool, i: int, m: Metric)
    requires UniqueTokens(devices)
    requires 0 <= i < |devices|
    ensures Notifies(MonitorAndNotify(devices, reading, now, isPushToken).messages, devices[i].token, m)
      <==> Alerted(devices[i], m, reading, now, isPushToken)
    decreases |devices|
  {
    var tail := devices[1..];
    var token := devices[i].token;
    var rest := MonitorAndNotify(tail, reading, now, isPushToken).messages;
    NotifiesCons(devices, reading, now, isPushToken, token, m);
    UniqueInTail(devices);
    var all := MonitorAndNotify(devices, reading, now, isPushToken).messages;
    if i == 0 {
      UnregisteredGetsNothing(rest, tail, reading, isPushToken, token, m);
      assert Notifies(all, token, m) <==> Alerted(devices[0], m, reading, now, isPushToken);
    } else {
      assert tail[i - 1] == devices[i];
      assert token != devices[0].token;
      NotifiedIffDecided(tail, reading, now, isPushToken, i - 1, m);
      assert Notifies(all, token, m) <==> Notifies(rest, token, m);
      assert Notifies(all, token, m) <==> Alerted(devices[i], m, reading, now, isPushToken);
    }
  }

  /** The messages of `msgs` addressed to `token`, in their order. */
  function To(msgs: seq<Message>, token: Token): (r: seq<Message>)
    ensures |r| <= |msgs|
    ensures forall x :: x in r <==> x in msgs && x.to == token
    decreases |msgs|
  {
    if |msgs| == 0 then []
    else (if msgs[0].to == token then [msgs[0]] else []) + To(msgs[1..], token)
  }

  /** Selecting the messages to one token distributes over concatenation. */
  lemma {:induction false} ToAppend(a: seq<Message>, b: seq<Message>, token: Token)
    ensures To(a + b, token) == To(a, token) + To(b, token)
    decreases |a|
  {
    if |a| > 0 {
      assert (a + b)[1..] == a[1..] + b;
      ToAppend(a[1..], b, token);
    } else {
      assert a + b == b;
    }
  }

  /** Selecting by a token that every message carries keeps the whole batch. */
  lemma {:induction false} ToAll(msgs: seq<Message>, token: Token)
    requires forall k :: 0 <= k < |msgs| ==> msgs[k].to == token
    ensures To(msgs, token) == msgs
    decreases |msgs|
  {
    if |msgs| > 0 {
      ToAll(msgs[1..], token);
      assert msgs == [msgs[0]] + msgs[1..];
    }
  }

  /** Selecting by a token that no message carries keeps nothing. */
  lemma {:induction false} ToNone(msgs: seq<Message>, token: Token)
    requires forall k :: 0 <= k < |msgs| ==> msgs[k].to != token
    ensures To(msgs, token) == []
    decreases |msgs|
  {
    if |msgs| > 0 {
      ToNone(msgs[1..], token);
    }
  }

  /** A faithful batch holds no message for a token that is not registered. */
  lemma UnregisteredGetsNoMessages(msgs: seq<Message>, devices: seq<Device>, reading: Reading, isPushToken: Token -> bool, token: Token)
    requires Faithful(msgs, devices, reading, isPushToken) && !Registered(devices, token)
    ensures To(msgs, token) == []
  {
    forall k | 0 <= k < |msgs|
      ensures msgs[k].to != token
    {
      assert Registered(devices, msgs[k].to);
    }
    ToNone(msgs, token);
  }

  /**
   With unique tokens, the messages a reading sends to device `i` are exactly
   that device's own batch, in order: one per metric the debouncer notifies
   about, nothing for a rejected token, and nothing more.
   */
  lemma {:induction false} BatchForDevice(devices: seq<Device>, reading: Reading, now: int, isPushToken: Token -> bool, i: int)
    requires UniqueTokens(devices)
    requires 0 <= i < |devices|
    ensures To(MonitorAndNotify(devices, reading, now, isPushToken).messages, devices[i].token) == Own(devices[i], reading, now, isPushToken)
    decreases |devices|
  {
    var tail := devices[1..];
    var token := devices[i].token;
    var own := Own(devices[0], reading, now, isPushToken);
    var rest := MonitorAndNotify(tail, reading, now, isPushToken).messages;
    MessagesCons(devices, reading, now, isPushToken);
    ToAppend(own, rest, token);
    UniqueInTail(devices);
    if i == 0 {
      ToAll(own, token);
      UnregisteredGetsNoMessages(rest, tail, reading, isPushToken, token);
      assert To(rest, token) == [];
      assert own + [] == own;
    } else {
      assert tail[i - 1] == devices[i];
      assert token != devices[0].token;
      ToNone(own, token);
      BatchForDevice(tail, reading, now, isPushToken, i - 1);
      assert [] + To(rest, token) == To(rest, token);
    }
  }

  /** A device that was never notified, or was reset, is sent one message per metric: three in all. */
  lemma FreshDeviceGetsThreeMessages(d: Device, reading: Reading, now: int)
    requires forall m :: d.StateOf(m) == Initial
    ensures var c := MonitorDevice(d, reading, now);
      && |c.messages| == 3
      && c.messages[0].metric == Temperature
      && c.messages[1].metric == Humidity
      && c.messages[2].metric == WaterTemp
  {
    var t := CheckMetric(d, Temperature, reading, now);
    var h := CheckMetric(t.device, Humidity, reading, now);
    var w := CheckMetric(h.device, WaterTemp, reading, now);
    assert Decide(d, Temperature, reading, now).notify;
    assert Decide(t.device, Humidity, reading, now).notify;
    assert Decide(h.device, WaterTemp, reading, now).notify;
  }

  /** Every accepted device in the never-notified state receives three messages on the next reading. */
  lemma {:induction false} FreshRegistryGetsThreePerDevice(devices: seq<Device>, reading: Reading, now: int, isPushToken: Token -> bool)
    requires forall i, m :: 0 <= i < |devices| ==> devices[i].StateOf(m) == Initial
    requires forall i :: 0 <= i < |devices| ==> isPushToken(devices[i].token)
    ensures |MonitorAndNotify(devices, reading, now, isPushToken).messages| == 3 * |devices|
    decreases |devices|
  {
    if |devices| > 0 {
      var tail := devices[1..];
      assert forall i, m :: 0 <= i < |tail| ==> tail[i].StateOf(m) == Initial by {
        forall i, m | 0 <= i < |tail|
          ensures tail[i].StateOf(m) == Initial
        {
          assert tail[i] == devices[i + 1];
        }
      }
      FreshRegistryGetsThreePerDevice(tail, reading, now, isPushToken);
      FreshDeviceGetsThreeMessages(devices[0], reading, now);
    }
  }

  /** After a reset, the next reading notifies every accepted device about every metric. */
  lemma ResetThenReadingNotifiesAll(devices: seq<Device>, reading: Reading, now: int, isPushToken: Token -> bool)
    requires forall i :: 0 <= i < |devices| ==> isPushToken(devices[i].token)
    ensures |MonitorAndNotify(ResetAllNotificationStates(devices), reading, now, isPushToken).messages| == 3 * |devices|
  {
    var reset := ResetAllNotificationStates(devices);
    assert GetRegisteredDevices(reset) == GetRegisteredDevices(devices);
    assert forall i :: 0 <= i < |reset| ==> isPushToken(reset[i].token) by {
      forall i | 0 <= i < |reset|
        ensures isPushToken(reset[i].token)
      {
        assert GetRegisteredDevices(reset)[i] == reset[i].token;
        assert GetRegisteredDevices(devices)[i] == devices[i].token;
      }
    }
    FreshRegistryGetsThreePerDevice(reset, reading, now, isPushToken);
  }

  /**
   Once a device has been visited with a reading, a second visit with the
   same reading notifies about a metric only if that metric is Critical, and
   never at the same instant.
   */
  lemma RevisitDecision(d: Device, reading: Reading, now: int, later: int, m: Metric)
    ensures var e := MonitorDevice(d, reading, now).device;
      Decide(e, m, reading, later).notify ==> GetStatus(m, reading.ValueOf(m)) == Critical && later != now
  {
  }

  /** The messages of a revisit about one metric are all Critical, and there are none at the same instant. */
  lemma RevisitAnnounce(d: Device, reading: Reading, now: int, later: int, m: Metric)
    ensures var e := MonitorDevice(d, reading, now).device;
      && (forall x :: x in Announce(e, m, reading, later) ==> x.status == Critical)
      && (later == now ==> Announce(e, m, reading, later) == [] && !Decide(e, m, reading, later).notify)
  {
    RevisitDecision(d, reading, now, later, m);
  }

  /**
   Feeding a device's own visit back with the same reading: only a Critical
   metric can be repeated, and at the same instant nothing is.
   */
  lemma RepeatedVisitOnlyReAlertsCritical(d: Device, reading: Reading, now: int, later: int)
    ensures var c1 := MonitorDevice(d, reading, now);
      var c2 := MonitorDevice(c1.device, reading, later);
      && (forall k :: 0 <= k < |c2.messages| ==> c2.messages[k].status == Critical)
      && (later == now ==> c2.messages == [] && c2.device == c1.device)
  {
    var e := MonitorDevice(d, reading, now).device;
    var c2 := MonitorDevice(e, reading, later);
    var a, b, c := Announce(e, Temperature, reading, later), Announce(e, Humidity, reading, later), Announce(e, WaterTemp, reading, later);
    RevisitAnnounce(d, reading, now, later, Temperature);
    RevisitAnnounce(d, reading, now, later, Humidity);
    RevisitAnnounce(d, reading, now, later, WaterTemp);
    forall k | 0 <= k < |c2.messages|
      ensures c2.messages[k].status == Critical
    {
      var x := c2.messages[k];
      assert x in a + b + c;
      assert x in a || x in b || x in c;
    }
    if later == now {
      assert a == [] && b == [] && c == [];
      assert c2.device.StateOf(Temperature) == e.StateOf(Temperature);
      assert c2.device.StateOf(Humidity) == e.StateOf(Humidity);
      assert c2.device.StateOf(WaterTemp) == e.StateOf(WaterTemp);
    }
  }

  /** The registry and batch of a second pass of the same reading, at time `later`. */
  function Again(devices: seq<Device>, reading: Reading, now: int, later: int, isPushToken: Token -> bool): Dispatch
  {
    MonitorAndNotify(MonitorAndNotify(devices, reading, now, isPushToken).devices, reading, later, isPushToken)
  }

  /** Every message of the batch is about a Critical status. */
  predicate AllCritical(msgs: seq<Message>)
  {
    forall k :: 0 <= k < |msgs| ==> msgs[k].status == Critical
  }

  /**
   Repeating a reading through the whole registry re-alerts only Critical
   metrics: an unchanged Warning or Optimal status is never sent again.
   */
  lemma {:induction false} RepeatedReadingOnlyReAlertsCritical(devices: seq<Device>, reading: Reading, now: int, later: int, isPushToken: Token -> bool)
    ensures AllCritical(Again(devices, reading, now, later, isPushToken).messages)
    decreases |devices|
  {
    if |devices| > 0 {
      var d, tail := devices[0], devices[1..];
      var r1 := MonitorAndNotify(devices, reading, now, isPushToken);
      var t1 := MonitorAndNotify(tail, reading, now, isPushToken);
      RepeatedReadingOnlyReAlertsCritical(tail, reading, now, later, isPushToken);
      var head1 := Visited(d, reading, now, isPushToken);
      assert r1.devices == [head1] + t1.devices;
      assert r1.devices[1..] == t1.devices;
      var t2 := MonitorAndNotify(t1.devices, reading, later, isPushToken);
      assert t2 == Again(tail, reading, now, later, isPushToken);
      var own2 := Own(head1, reading, later, isPushToken);
      if isPushToken(d.token) {
        RepeatedVisitOnlyReAlertsCritical(d, reading, now, later);
      }
      assert AllCritical(own2);
      var r2 := MonitorAndNotify(r1.devices, reading, later, isPushToken);
      assert r2.messages == own2 + t2.messages;
    }
  }

  /** Repeating a reading at the same instant sends nothing and changes nothing. */
  lemma {:induction false} SameInstantRepeatIsQuiet(devices: seq<Device>, reading: Reading, now: int, isPushToken: Token -> bool)
    ensures Again(devices, reading, now, now, isPushToken) == Dispatch(MonitorAndNotify(devices, reading, now, isPushToken).devices, [])
    decreases |devices|
  {
    if |devices| > 0 {
      var d, tail := devices[0], devices[1..];
      var r1 := MonitorAndNotify(devices, reading, now, isPushToken);
      var t1 := MonitorAndNotify(tail, reading, now, isPushToken);
      SameInstantRepeatIsQuiet(tail, reading, now, isPushToken);
      var head1 := Visited(d, reading, now, isPushToken);
      assert r1.devices == [head1] + t1.devices;
      assert r1.devices[1..] == t1.devices;
      var t2 := MonitorAndNotify(t1.devices, reading, now, isPushToken);
      assert t2 == Again(tail, reading, now, now, isPushToken);
      if isPushToken(d.token) {
        RepeatedVisitOnlyReAlertsCritical(d, reading, now, now);
      }
    }
  }

  /**
   The first reading of a freshly registered device: air temperature 40 is an
   alarm, humidity 50 and water temperature 25 are Optimal first notifications
   with the recovery wording; all three decisions are recorded.
   */
  lemma FirstReadingEndToEnd(token: Token, now: int, isPushToken: Token -> bool)
    requires isPushToken(token)
    ensures var r := MonitorAndNotify([Fresh(token)], Reading(40.0, 50.0, 25.0), now, isPushToken);
      && r.messages == [
        Message(token, Temperature, Alarm, 40.0, Critical),
        Message(token, Humidity, Recovery, 50.0, Optimal),
        Message(token, WaterTemp, Recovery, 25.0, Optimal)]
      && r.devices == [Device(token, DebounceState(now, Critical), DebounceState(now, Optimal), DebounceState(now, Optimal))]
  {
    var devices := [Fresh(token)];
    assert devices[1..] == [];
  }
}
