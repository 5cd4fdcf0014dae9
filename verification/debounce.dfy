/**
 The per-device, per-metric notification debouncer. A device is told about
 every change of a metric's status at once, and is reminded of a sustained
 Critical status at most once per notification interval; a sustained Warning
 or Optimal status is never repeated.
 */
module Debounce {
  import opened Thresholds

  /** Thirty minutes, in milliseconds. */
  const NotificationInterval: int := 30 * 60 * 1000

  /** What a device remembers about one metric: when it was last notified and about which status. */
  datatype DebounceState = DebounceState(lastNotified: int, lastStatus: Status)

  /** The state of a metric that was never notified. */
  const Initial: DebounceState := DebounceState(0, Unknown)

  /** The outcome of one decision: whether to notify, and the state to keep afterwards. */
  datatype Decision = Decision(notify: bool, next: DebounceState)

  /** Whether the `current` status of a metric, observed at `now`, warrants a notification. */
  function ShouldSendNotification(s: DebounceState, current: Status, now: int): (r: bool)
    ensures current != s.lastStatus ==> r
    ensures current == s.lastStatus ==> (r <==> current == Critical && now - s.lastNotified >= NotificationInterval)
  {
    if current != s.lastStatus then true
    else current == Critical && now - s.lastNotified >= NotificationInterval
  }

  /**
   Decides and records in one step: on a notification both the time and the
   status are overwritten, otherwise neither is.
   */
  function Step(s: DebounceState, current: Status, now: int): (d: Decision)
    ensures d.notify == ShouldSendNotification(s, current, now)
    ensures d.notify ==> d.next == DebounceState(now, current)
    ensures !d.notify ==> d.next == s
    // after every decision the recorded status is the one just observed
    ensures d.next.lastStatus == current
    // a Critical status is never left without a notification younger than the interval
    ensures current == Critical ==> now - d.next.lastNotified < NotificationInterval
  {
    var notify := ShouldSendNotification(s, current, now);
    Decision(notify, if notify then DebounceState(now, current) else s)
  }

  /** One classified reading of a single metric, observed at time `at`. */
  datatype Sample = Sample(status: Status, at: int)

  /** The times at which a run over a trace notified, and the state it ends in. */
  datatype Run = Run(notified: seq<int>, last: DebounceState)

  /** Feeds a trace of samples through the debouncer, one decision per sample. */
  function RunTrace(s: DebounceState, trace: seq<Sample>): (r: Run)
    decreases |trace|
  {
    if |trace| == 0 then Run([], s)
    else
      var d := Step(s, trace[0].status, trace[0].at);
      var rest := RunTrace(d.next, trace[1..]);
      Run((if d.notify then [trace[0].at] else []) + rest.notified, rest.last)
  }

  /** The number of samples whose status differs from the status before them. */
  function Changes(prev: Status, trace: seq<Sample>): nat
    decreases |trace|
  {
    if |trace| == 0 then 0
    else (if trace[0].status != prev then 1 else 0) + Changes(trace[0].status, trace[1..])
  }

  /** A run ends having recorded the status of the last sample. */
  lemma {:induction false} RunRecordsLastStatus(s: DebounceState, trace: seq<Sample>)
    requires |trace| > 0
    ensures RunTrace(s, trace).last.lastStatus == trace[|trace| - 1].status
    decreases |trace|
  {
    var d := Step(s, trace[0].status, trace[0].at);
    if |trace| > 1 {
      RunRecordsLastStatus(d.next, trace[1..]);
    }
  }

  /**
   No silence: when the last sample of a run is Critical, the run ends with a
   notification less than one interval older than that sample.
   */
  lemma {:induction false} RunNeverSilentOnCritical(s: DebounceState, trace: seq<Sample>)
    requires |trace| > 0 && trace[|trace| - 1].status == Critical
    ensures trace[|trace| - 1].at - RunTrace(s, trace).last.lastNotified < NotificationInterval
    decreases |trace|
  {
    var d := Step(s, trace[0].status, trace[0].at);
    if |trace| > 1 {
      RunNeverSilentOnCritical(d.next, trace[1..]);
    }
  }

  /**
   No storm: while a metric stays Critical, any two successive notifications
   are at least one interval apart, and so is the first from the last one
   sent before the run.
   */
  lemma {:induction false} SustainedCriticalIsSpaced(s: DebounceState, trace: seq<Sample>)
    requires s.lastStatus == Critical
    requires forall i :: 0 <= i < |trace| ==> trace[i].status == Critical
    ensures var t := RunTrace(s, trace).notified;
      && (|t| > 0 ==> t[0] - s.lastNotified >= NotificationInterval)
      && (forall k :: 0 <= k < |t| - 1 ==> t[k + 1] - t[k] >= NotificationInterval)
    decreases |trace|
  {
    if |trace| > 0 {
      var d := Step(s, trace[0].status, trace[0].at);
      SustainedCriticalIsSpaced(d.next, trace[1..]);
      var rest := RunTrace(d.next, trace[1..]).notified;
      var t := RunTrace(s, trace).notified;
      if d.notify {
        assert t == [trace[0].at] + rest;
        forall k | 0 <= k < |t| - 1
          ensures t[k + 1] - t[k] >= NotificationInterval
        {
          if k > 0 {
            assert t[k] == rest[k - 1] && t[k + 1] == rest[k];
          }
        }
      } else {
        assert t == rest;
      }
    }
  }

  /** A run notifies at least as often as the status changes. */
  lemma {:induction false} EveryChangeNotifies(s: DebounceState, trace: seq<Sample>)
    ensures |RunTrace(s, trace).notified| >= Changes(s.lastStatus, trace)
    decreases |trace|
  {
    if |trace| > 0 {
      var d := Step(s, trace[0].status, trace[0].at);
      EveryChangeNotifies(d.next, trace[1..]);
    }
  }

  /**
   Without a Critical sample the debouncer notifies exactly on the status
   changes: a sustained Warning or Optimal status is never repeated.
   */
  lemma {:induction false} NonCriticalNotifiesOnlyOnChanges(s: DebounceState, trace: seq<Sample>)
    requires forall i :: 0 <= i < |trace| ==> trace[i].status != Critical
    ensures |RunTrace(s, trace).notified| == Changes(s.lastStatus, trace)
    decreases |trace|
  {
    if |trace| > 0 {
      var d := Step(s, trace[0].status, trace[0].at);
      NonCriticalNotifiesOnlyOnChanges(d.next, trace[1..]);
    }
  }

  /** A repeated Critical status is suppressed ten minutes on and re-sent thirty-one minutes on. */
  lemma ReAlertCadence(t: int)
    ensures !ShouldSendNotification(DebounceState(t, Critical), Critical, t + 10 * 60 * 1000)
    ensures ShouldSendNotification(DebounceState(t, Critical), Critical, t + 31 * 60 * 1000)
  {
  }

  /**
   Warning, then Critical, then Warning again, from any state: the first
   reading is notified unless Warning was already recorded, and the two
   transitions after it always are.
   */
  lemma TransitionsAreNeverSuppressed(s: DebounceState, t0: int, t1: int, t2: int)
    ensures RunTrace(s, [Sample(Warning, t0), Sample(Critical, t1), Sample(Warning, t2)]).notified
      == (if s.lastStatus != Warning then [t0] else []) + [t1, t2]
  {
    var trace := [Sample(Warning, t0), Sample(Critical, t1), Sample(Warning, t2)];
    var s1 := Step(s, Warning, t0).next;
    var s2 := DebounceState(t1, Critical);
    assert trace[1..] == [Sample(Critical, t1), Sample(Warning, t2)];
    assert trace[1..][1..] == [Sample(Warning, t2)];
    assert RunTrace(s2, [Sample(Warning, t2)]).notified == [t2];
    assert RunTrace(s1, trace[1..]).notified == [t1, t2];
  }
}
