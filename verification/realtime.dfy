/**
 The latest-reading cache behind the realtime endpoint. Sensor messages merge
 partial readings into it, a transport error marks it disconnected, and each
 poll marks it disconnected once the last reading is 30 seconds old, answers
 with the cached values, and, when all three readings are known, runs the
 alert dispatcher on them.
 */
module Realtime {
  import opened Debounce
  import opened Registry
  import opened Monitor

  datatype Option<T> = None | Some(value: T)

  /** A reading older than this many milliseconds no longer counts as connected. */
  const StaleAfter: int := 30000

  /** The cache; a timestamp is the epoch millisecond at which the last reading arrived. */
  datatype RealtimeData = RealtimeData(
    temperature: Option<real>,
    humidity: Option<real>,
    waterTemp: Option<real>,
    timestamp: Option<int>,
    connected: bool,
    lastError: Option<string>)

  /** The cache before anything has arrived. */
  const InitialData: RealtimeData := RealtimeData(None, None, None, None, false, None)

  /** A sensor message, carrying any subset of the three readings. */
  datatype PartialReading = PartialReading(temperature: Option<real>, humidity: Option<real>, waterTemp: Option<real>)

  /** A provided value replaces the cached one; an absent value keeps it. */
  function Merge(cached: Option<real>, given: Option<real>): (r: Option<real>)
  {
    if given.Some? then given else cached
  }

  /** Records a sensor message received at `now`. */
  function UpdateRealtimeData(data: RealtimeData, p: PartialReading, now: int): (r: RealtimeData)
    ensures p.temperature.Some? ==> r.temperature == p.temperature
    ensures p.temperature.None? ==> r.temperature == data.temperature
    ensures p.humidity.Some? ==> r.humidity == p.humidity
    ensures p.humidity.None? ==> r.humidity == data.humidity
    ensures p.waterTemp.Some? ==> r.waterTemp == p.waterTemp
    ensures p.waterTemp.None? ==> r.waterTemp == data.waterTemp
    ensures r.timestamp == Some(now) && r.connected && r.lastError == None
  {
    RealtimeData(
      Merge(data.temperature, p.temperature),
      Merge(data.humidity, p.humidity),
      Merge(data.waterTemp, p.waterTemp),
      Some(now),
      true,
      None)
  }

  /** Records a transport error: disconnected, with the message kept; readings and timestamp stay. */
  function SetMqttError(data: RealtimeData, error: string): (r: RealtimeData)
    ensures !r.connected && r.lastError == Some(error)
    ensures r.temperature == data.temperature && r.humidity == data.humidity && r.waterTemp == data.waterTemp
    ensures r.timestamp == data.timestamp
  {
    data.(connected := false, lastError := Some(error))
  }

  /** Whether all three readings are known, so that alerts can be evaluated. */
  predicate Complete(data: RealtimeData)
  {
    data.temperature.Some? && data.humidity.Some? && data.waterTemp.Some?
  }

  /** A cached reading as reported: an unknown reading is reported as 0. */
  function OrZero(v: Option<real>): real
  {
    if v.Some? then v.value else 0.0
  }

  /** The single record the endpoint answers with. */
  datatype Response = Response(
    id: int,
    temperature: real,
    humidity: real,
    waterTemp: real,
    timestamp: int,
    connected: bool,
    error: Option<string>)

  /** The cache, registry and batch after a poll, with its answer. */
  datatype Poll = Poll(data: RealtimeData, devices: seq<Device>, messages: seq<Message>, response: Response)

  /**
   Answers a poll at `now`: applies the staleness rule, reports the cache, and
   runs the alert dispatcher when all three readings are known.
   */
  function Get(data: RealtimeData, devices: seq<Device>, now: int, isPushToken: Token -> bool): (r: Poll)
    // staleness: only an old timestamp clears the flag; it is never set here
    ensures data.timestamp.Some? && now - data.timestamp.value >= StaleAfter ==> !r.data.connected
    ensures data.timestamp.None? || now - data.timestamp.value < StaleAfter ==> r.data.connected == data.connected
    ensures r.data == data.(connected := r.data.connected)
    // alert gating
    ensures Complete(data) ==>
      Dispatch(r.devices, r.messages) == MonitorAndNotify(devices, Reading(data.temperature.value, data.humidity.value, data.waterTemp.value), now, isPushToken)
    ensures !Complete(data) ==> r.devices == devices && r.messages == []
    // the answer
    ensures r.response.id == now
    ensures r.response.temperature == OrZero(data.temperature)
    ensures r.response.humidity == OrZero(data.humidity)
    ensures r.response.waterTemp == OrZero(data.waterTemp)
    ensures r.response.timestamp == (if data.timestamp.Some? then data.timestamp.value else now)
    ensures r.response.connected == r.data.connected && r.response.error == data.lastError
  {
    var isRecent := data.timestamp.Some? && now - data.timestamp.value < StaleAfter;
    var data' := if !isRecent && data.timestamp.Some? then data.(connected := false) else data;
    var response := Response(
      now,
      OrZero(data'.temperature),
      OrZero(data'.humidity),
      OrZero(data'.waterTemp),
      if data'.timestamp.Some? then data'.timestamp.value else now,
      data'.connected,
      data'.lastError);
    if Complete(data') then
      var d := MonitorAndNotify(devices, Reading(data'.temperature.value, data'.humidity.value, data'.waterTemp.value), now, isPushToken);
      Poll(data', d.devices, d.messages, response)
    else
      Poll(data', devices, [], response)
  }

  /** Once all three readings are known they stay known: later messages, errors and polls only replace them. */
  lemma CompleteIsStable(data: RealtimeData, p: PartialReading, error: string, devices: seq<Device>, now: int, isPushToken: Token -> bool)
    requires Complete(data)
    ensures Complete(UpdateRealtimeData(data, p, now))
    ensures Complete(SetMqttError(data, error))
    ensures Complete(Get(data, devices, now, isPushToken).data)
  {
  }

  /** A message received after an error wipes the error out entirely: the result is as if no error had happened. */
  lemma UpdateClearsError(data: RealtimeData, error: string, p: PartialReading, now: int)
    ensures UpdateRealtimeData(SetMqttError(data, error), p, now) == UpdateRealtimeData(data, p, now)
  {
  }

  /** Merging is idempotent: delivering the same sensor message twice leaves the cache as delivering it once. */
  lemma UpdateIsIdempotent(data: RealtimeData, p: PartialReading, now: int)
    ensures UpdateRealtimeData(UpdateRealtimeData(data, p, now), p, now) == UpdateRealtimeData(data, p, now)
  {
  }

  /** A poll less than 30 seconds after a sensor message reports connected; a poll 30 seconds or more after reports disconnected. */
  lemma FreshnessWindow(data: RealtimeData, p: PartialReading, received: int, devices: seq<Device>, now: int, isPushToken: Token -> bool)
    ensures Get(UpdateRealtimeData(data, p, received), devices, now, isPushToken).response.connected <==> now - received < StaleAfter
  {
  }

  /**
   A message carrying only the air readings, after a complete one, still
   triggers alerts: the water temperature is taken from the cache.
   */
  lemma PartialMessageUsesCachedValues(data: RealtimeData, air: real, humidity: real, devices: seq<Device>, now: int, isPushToken: Token -> bool)
    requires Complete(data)
    ensures var r := Get(UpdateRealtimeData(data, PartialReading(Some(air), Some(humidity), None), now), devices, now, isPushToken);
      Dispatch(r.devices, r.messages) == MonitorAndNotify(devices, Reading(air, humidity, data.waterTemp.value), now, isPushToken)
  {
  }

  /**
   While the water temperature has never arrived, a sensor message without it
   leaves the cache incomplete, and a poll sends nothing and leaves the
   registry alone.
   */
  lemma IncompleteCacheNeverAlerts(data: RealtimeData, p: PartialReading, devices: seq<Device>, received: int, now: int, isPushToken: Token -> bool)
    requires data.waterTemp.None? && p.waterTemp.None?
    ensures var r := Get(UpdateRealtimeData(data, p, received), devices, now, isPushToken);
      r.messages == [] && r.devices == devices && r.data.waterTemp.None?
  {
  }

  /**
   The alert dispatcher also runs on a stale cache: a poll that marks the
   feed disconnected still evaluates alerts on the old readings.
   */
  lemma StaleCacheStillAlerts(data: RealtimeData, devices: seq<Device>, now: int, isPushToken: Token -> bool)
    requires Complete(data) && data.timestamp.Some? && now - data.timestamp.value >= StaleAfter
    ensures var r := Get(data, devices, now, isPushToken);
      && !r.response.connected
      && Dispatch(r.devices, r.messages) == MonitorAndNotify(devices, Reading(data.temperature.value, data.humidity.value, data.waterTemp.value), now, isPushToken)
  {
  }
}
