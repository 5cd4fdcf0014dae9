/**
 The in-memory registry of devices subscribed to push notifications. Each
 device is identified by its push token and keeps one debounce state per
 metric. The registry is an ordered sequence; registration appends.
 */
module Registry {
  import opened Thresholds
  import opened Debounce

  /** An opaque push token. */
  type Token = string

  datatype Device = Device(token: Token, temperature: DebounceState, humidity: DebounceState, waterTemp: DebounceState)
  {
    /** The debounce state this device keeps for metric `m`. */
    function StateOf(m: Metric): DebounceState
    {
      match m
      case Temperature => temperature
      case Humidity => humidity
      case WaterTemp => waterTemp
    }

    /** This device with the state of metric `m` replaced and everything else kept. */
    function WithState(m: Metric, s: DebounceState): (d: Device)
      ensures d.token == token
      ensures d.StateOf(m) == s
      ensures forall m' :: m' != m ==> d.StateOf(m') == StateOf(m')
    {
      match m
      case Temperature => this.(temperature := s)
      case Humidity => this.(humidity := s)
      case WaterTemp => this.(waterTemp := s)
    }
  }

  /** A newly registered device: never notified, every status Unknown. */
  function Fresh(token: Token): (d: Device)
    ensures d.token == token
    ensures forall m :: d.StateOf(m) == Initial
  {
    Device(token, Initial, Initial, Initial)
  }

  /** Whether some device in the registry carries `token`. */
  predicate Registered(devices: seq<Device>, token: Token)
  {
    exists i :: 0 <= i < |devices| && devices[i].token == token
  }

  /** At most one device per token. */
  predicate UniqueTokens(devices: seq<Device>)
  {
    forall i, j :: 0 <= i < j < |devices| ==> devices[i].token != devices[j].token
  }

  /** The result of a registration or unregistration: the reported success and the new registry. */
  datatype Update = Update(ok: bool, devices: seq<Device>)

  /** The registered tokens, in registration order. */
  function GetRegisteredDevices(devices: seq<Device>): (ts: seq<Token>)
    ensures |ts| == |devices|
    ensures forall i :: 0 <= i < |devices| ==> ts[i] == devices[i].token
    ensures forall t :: t in ts <==> Registered(devices, t)
  {
    seq(|devices|, i requires 0 <= i < |devices| => devices[i].token)
  }

  /**
   Registers `token`: an invalid token is refused, a known token is accepted
   without change, and a new token is appended with a fresh state.
   */
  function RegisterDevice(devices: seq<Device>, token: Token, isPushToken: Token -> bool): (r: Update)
    ensures r.ok <==> isPushToken(token)
    ensures !r.ok ==> r.devices == devices
    ensures r.ok ==> Registered(r.devices, token)
    ensures Registered(devices, token) ==> r.devices == devices
    ensures r.ok && !Registered(devices, token) ==> r.devices == devices + [Fresh(token)]
    ensures UniqueTokens(devices) ==> UniqueTokens(r.devices)
  {
    if !isPushToken(token) then Update(false, devices)
    else if Registered(devices, token) then Update(true, devices)
    else
      var added := devices + [Fresh(token)];
      assert added[|devices|].token == token;
      Update(true, added)
  }

  /** A token is registered when the first device carries it or the rest of the registry does. */
  lemma RegisteredCons(devices: seq<Device>, token: Token)
    requires |devices| > 0
    ensures Registered(devices, token) <==> devices[0].token == token || Registered(devices[1..], token)
  {
    if Registered(devices[1..], token) {
      var i :| 0 <= i < |devices[1..]| && devices[1..][i].token == token;
      assert devices[i + 1].token == token;
    }
    if Registered(devices, token) && devices[0].token != token {
      var i :| 0 <= i < |devices| && devices[i].token == token;
      assert devices[1..][i - 1].token == token;
    }
  }

  /** The devices whose token is not `token`, in their original order. */
  function Without(devices: seq<Device>, token: Token): (r: seq<Device>)
    ensures |r| <= |devices|
    ensures forall d :: d in r <==> d in devices && d.token != token
    ensures Registered(devices, token) <==> |r| < |devices|
    ensures !Registered(devices, token) ==> r == devices
    decreases |devices|
  {
    if |devices| == 0 then []
    else
      var rest := Without(devices[1..], token);
      RegisteredCons(devices, token);
      assert devices == [devices[0]] + devices[1..];
      if devices[0].token == token then rest else [devices[0]] + rest
  }

  /** Removes every device carrying `token`; reports whether the registry shrank. */
  function UnregisterDevice(devices: seq<Device>, token: Token): (r: Update)
    ensures r.ok <==> Registered(devices, token)
    ensures !Registered(r.devices, token)
    ensures forall d :: d in r.devices <==> d in devices && d.token != token
    ensures !r.ok ==> r.devices == devices
    ensures UniqueTokens(devices) ==> UniqueTokens(r.devices)
  {
    var kept := Without(devices, token);
    WithoutKeepsUnique(devices, token);
    Update(|kept| < |devices|, kept)
  }

  /** The tail of a registry with unique tokens has unique tokens, none of them the first device's. */
  lemma UniqueInTail(devices: seq<Device>)
    requires |devices| > 0 && UniqueTokens(devices)
    ensures UniqueTokens(devices[1..])
    ensures forall j :: 0 <= j < |devices[1..]| ==> devices[1..][j].token != devices[0].token
  {
    forall a, b | 0 <= a < b < |devices[1..]|
      ensures devices[1..][a].token != devices[1..][b].token
    {
      assert devices[1..][a] == devices[a + 1] && devices[1..][b] == devices[b + 1];
    }
  }

  /** Putting a device in front of a registry that lacks its token keeps tokens unique. */
  lemma UniqueCons(d: Device, rest: seq<Device>)
    requires UniqueTokens(rest)
    requires forall x :: x in rest ==> x.token != d.token
    ensures UniqueTokens([d] + rest)
  {
    var r := [d] + rest;
    forall i, j | 0 <= i < j < |r|
      ensures r[i].token != r[j].token
    {
      assert r[j] == rest[j - 1];
      if i > 0 {
        assert r[i] == rest[i - 1];
      }
    }
  }

  /** Filtering keeps tokens unique (its result is a subsequence). */
  lemma {:induction false} WithoutKeepsUnique(devices: seq<Device>, token: Token)
    ensures UniqueTokens(devices) ==> UniqueTokens(Without(devices, token))
    decreases |devices|
  {
    if |devices| > 0 && UniqueTokens(devices) {
      var tail := devices[1..];
      UniqueInTail(devices);
      WithoutKeepsUnique(tail, token);
      var rest := Without(tail, token);
      if devices[0].token != token {
        UniqueCons(devices[0], rest);
      }
    }
  }

  /** Filtering distributes over concatenation. */
  lemma {:induction false} WithoutAppend(a: seq<Device>, b: seq<Device>, token: Token)
    ensures Without(a + b, token) == Without(a, token) + Without(b, token)
    decreases |a|
  {
    if |a| > 0 {
      assert (a + b)[1..] == a[1..] + b;
      WithoutAppend(a[1..], b, token);
    } else {
      assert a + b == b;
    }
  }

  /**
   With unique tokens, unregistering the device at position `k` removes
   exactly that device and keeps all the others in their order.
   */
  lemma {:induction false} UnregisterRemovesAt(devices: seq<Device>, token: Token, k: int)
    requires UniqueTokens(devices)
    requires 0 <= k < |devices| && devices[k].token == token
    ensures UnregisterDevice(devices, token).devices == devices[..k] + devices[k + 1..]
  {
    var head, rest, tail := devices[..k], devices[k..], devices[k + 1..];
    assert devices == head + rest;
    WithoutAppend(head, rest, token);
    assert !Registered(head, token) by {
      forall i | 0 <= i < |head|
        ensures head[i].token != token
      {
        assert head[i] == devices[i];
      }
    }
    assert !Registered(tail, token) by {
      forall i | 0 <= i < |tail|
        ensures tail[i].token != token
      {
        assert tail[i] == devices[k + 1 + i];
      }
    }
    assert rest[0].token == token && rest[1..] == tail;
    assert Without(rest, token) == tail;
    assert Without(devices, token) == head + tail;
  }

  /** Registering a new token and then unregistering it restores the registry. */
  lemma RegisterThenUnregister(devices: seq<Device>, token: Token, isPushToken: Token -> bool)
    requires isPushToken(token) && !Registered(devices, token)
    ensures UnregisterDevice(RegisterDevice(devices, token, isPushToken).devices, token) == Update(true, devices)
  {
    var added := [Fresh(token)];
    WithoutAppend(devices, added, token);
    assert added[1..] == [];
  }

  /** Registering is idempotent: a second registration of the same token changes nothing. */
  lemma RegisterIsIdempotent(devices: seq<Device>, token: Token, isPushToken: Token -> bool)
    ensures var r := RegisterDevice(devices, token, isPushToken);
      RegisterDevice(r.devices, token, isPushToken) == r
  {
  }

  /** Resets every device to the never-notified state, keeping membership and order. */
  function ResetAllNotificationStates(devices: seq<Device>): (r: seq<Device>)
    ensures GetRegisteredDevices(r) == GetRegisteredDevices(devices)
    ensures forall i, m :: 0 <= i < |r| ==> r[i].StateOf(m) == Initial
  {
    seq(|devices|, i requires 0 <= i < |devices| => Fresh(devices[i].token))
  }

  /** Resetting twice is resetting once, and a reset keeps tokens unique. */
  lemma ResetAllIsIdempotent(devices: seq<Device>)
    ensures ResetAllNotificationStates(ResetAllNotificationStates(devices)) == ResetAllNotificationStates(devices)
    ensures UniqueTokens(devices) ==> UniqueTokens(ResetAllNotificationStates(devices))
  {
    var once := ResetAllNotificationStates(devices);
    var twice := ResetAllNotificationStates(once);
    assert GetRegisteredDevices(twice) == GetRegisteredDevices(once) == GetRegisteredDevices(devices);
    forall i | 0 <= i < |once|
      ensures twice[i] == once[i]
    {
      assert GetRegisteredDevices(twice)[i] == GetRegisteredDevices(once)[i];
      assert GetRegisteredDevices(once)[i] == GetRegisteredDevices(devices)[i];
    }
  }
}
