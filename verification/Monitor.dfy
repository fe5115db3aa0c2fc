/**
 The services monitor: calibration of every service's lag at construction,
 the sleep interval before the next decision, and one check pass over the
 services that are due. The worker threads of overc's monitor are run one
 after another here. Each touches only its own service, so only the order of
 the produced states differs, and those are compared as multisets. A worker
 that raises dies alone: the steps after the raise are skipped, and the
 other workers are unaffected.
 */
module Monitor {
  import opened Wrappers
  import opened Builtins
  import opened Services
  import opened Executor

  /** Why a monitor operation raised: `max()`/`min()` over an empty list. */
  datatype MonitorError =
    | NoServices   // the monitor holds no service at all
    | NothingDue   // no service fell inside the max-lag window

  /** The outcome of calibration: the services with their measured lags, and
      per service whether the high-lag warning branch was taken. */
  datatype Calibration = Calibration(services: seq<Service>, tooSlow: seq<bool>)

  /** What a successful check pass hands back: the reported period, one state
      per checked service, and the services with their new test stamps. */
  datatype CheckReport = CheckReport(period: int, states: seq<CheckResult>, services: seq<Service>)

  /** The lags of all services, in list order. */
  function Lags(services: seq<Service>): (r: seq<real>)
    ensures |r| == |services|
    ensures forall i :: 0 <= i < |services| ==> r[i] == services[i].lag
  {
    seq(|services|, i requires 0 <= i < |services| => services[i].lag)
  }

  /** `max(service.lag for service in self.services)` */
  function MaxLag(services: seq<Service>): (m: real)
    requires |services| > 0
    ensures forall i :: 0 <= i < |services| ==> services[i].lag <= m
    ensures exists i :: 0 <= i < |services| && m == services[i].lag
  {
    MaxOf(Lags(services))
  }

  /** The calibration worker for one service. If `get_state` raises, the
      thread dies before the lag is stored. Otherwise the measured duration is
      stored as the lag first, and the warning branch then tests the stored
      lag. (The warning's own format call raises, but only after the lag is
      stored.) */
  function CalibrateService(s: Service, outcome: SpawnOutcome, duration: real): (r: (Service, bool))
    ensures GetState(s, outcome).Err? ==> r == (s, false)
    ensures GetState(s, outcome).Ok? ==> r.0 == s.(lag := duration)
    ensures r.1 <==> GetState(s, outcome).Ok? && duration > s.period * 0.5
  {
    if GetState(s, outcome).Err? then (s, false)
    else
      var measured := s.(lag := duration);
      (measured, measured.lag > measured.period * 0.5)
  }

  /** `_evaluate_service_lags`: every service whose check returns gets its
      measured duration as lag. A service whose check raises keeps its lag.
      Nothing else about any service changes. */
  function Calibrate(services: seq<Service>, outcomes: seq<SpawnOutcome>, durations: seq<real>): (r: Calibration)
    requires |outcomes| == |services| && |durations| == |services|
    ensures |r.services| == |services| && |r.tooSlow| == |services|
    ensures forall i :: 0 <= i < |services| ==>
      r.services[i] ==
        if GetState(services[i], outcomes[i]).Ok? then services[i].(lag := durations[i]) else services[i]
    ensures forall i :: 0 <= i < |services| ==>
      (r.tooSlow[i] <==> GetState(services[i], outcomes[i]).Ok? && durations[i] > services[i].period * 0.5)
  {
    if |services| == 0 then Calibration([], [])
    else
      var (first, slow) := CalibrateService(services[0], outcomes[0], durations[0]);
      var rest := Calibrate(services[1..], outcomes[1..], durations[1..]);
      Calibration([first] + rest.services, [slow] + rest.tooSlow)
  }

  /** The delays of all services at `now`, in list order. */
  function Delays(services: seq<Service>, now: Time): (r: seq<real>)
    ensures |r| == |services|
    ensures forall i :: 0 <= i < |services| ==> r[i] == NextUpdateIn(services[i], now)
  {
    seq(|services|, i requires 0 <= i < |services| => NextUpdateIn(services[i], now))
  }

  /** `sleep_time`: the smallest delay over all services. */
  function SleepTime(services: seq<Service>, now: Time): (r: Result<real, MonitorError>)
    ensures r.Err? <==> |services| == 0
    ensures r.Err? ==> r.error == NoServices
    ensures r.Ok? ==> r.value >= 0.0
    ensures r.Ok? ==> forall i :: 0 <= i < |services| ==> r.value <= NextUpdateIn(services[i], now)
    ensures r.Ok? ==> exists i :: 0 <= i < |services| && r.value == NextUpdateIn(services[i], now)
    ensures (exists i :: 0 <= i < |services| && services[i].lastTested.None?) ==> r == Ok(0.0)
  {
    if |services| == 0 then Err(NoServices)
    else
      var delays := Delays(services, now);
      var m := MinOf(delays);
      assert m >= 0.0 by {
        var i :| 0 <= i < |delays| && m == delays[i];
      }
      Ok(m)
  }

  /** Whether the service at index `i` falls inside the window at `now`. */
  predicate IsDue(services: seq<Service>, now: Time, window: real, i: int)
    requires 0 <= i < |services|
  {
    NextUpdateIn(services[i], now) <= window
  }

  /** The services selected for checking, as indices in list order. */
  function Selection(services: seq<Service>, now: Time, window: real): (r: seq<nat>)
    ensures forall k :: 0 <= k < |r| ==> r[k] < |services| && IsDue(services, now, window, r[k])
    ensures forall i :: 0 <= i < |services| && IsDue(services, now, window, i) ==> i in r
    ensures forall j, k :: 0 <= j < k < |r| ==> r[j] < r[k]
    ensures |r| <= |services|
  {
    Where(|services|, (i: nat) => i < |services| && IsDue(services, now, window, i))
  }

  /** Membership in the selection is exactly being due. */
  lemma SelectionIsDue(services: seq<Service>, now: Time, window: real)
    ensures forall i :: 0 <= i < |services| ==>
      (i in Selection(services, now, window) <==> IsDue(services, now, window, i))
  {
  }

  /** A check worker runs to the stamp at the end of its task: its command
      line splits, and every text formatted on the way (the start-failure
      message, the eager debug line with the name and, for a process that ran,
      its output) decodes as ASCII. */
  predicate Completes(s: Service, outcome: SpawnOutcome)
  {
    match outcome
    case Unsplittable(_) => false
    case SpawnFailed(message) => IsAscii(s.name) && IsAscii(message)
    case Exited(_, output) => IsAscii(s.name) && IsAscii(output)
  }

  /** The check worker for one service. It appends the state `get_state`
      returns, then builds the debug line, then stamps the service. A raise
      at any step kills the thread and skips the rest. */
  function CheckWorker(s: Service, outcome: SpawnOutcome, stamp: Time): (r: (Option<CheckResult>, Service))
    ensures r.0.Some? <==> GetState(s, outcome).Ok?
    ensures r.0.Some? ==> r.0.value == GetState(s, outcome).value
    ensures r.1 == if Completes(s, outcome) then s.(lastTested := Some(stamp)) else s
  {
    var state := GetState(s, outcome);
    if state.Err? then (None, s)
    else
      // the debug line's `u'…'.format` decodes the name and the info, which
      // is the byte output of a process that ran
      var debugDecodes := IsAscii(s.name) && (outcome.Exited? ==> IsAscii(state.value.info));
      (Some(state.value), if debugDecodes then s.(lastTested := Some(stamp)) else s)
  }

  /** `state` was returned by the check of one of the selected services. */
  ghost predicate StateOfSelected(services: seq<Service>, outcomes: seq<SpawnOutcome>, selected: seq<nat>, state: CheckResult)
    requires |outcomes| == |services|
    requires forall k :: 0 <= k < |selected| ==> selected[k] < |services|
  {
    exists k :: 0 <= k < |selected| && GetState(services[selected[k]], outcomes[selected[k]]) == Ok(state)
  }

  /** The states appended by the checks of the selected services, in
      selection order: one per check whose `get_state` returned. */
  function SelectedStates(services: seq<Service>, outcomes: seq<SpawnOutcome>, selected: seq<nat>): (r: seq<CheckResult>)
    requires |outcomes| == |services|
    requires forall k :: 0 <= k < |selected| ==> selected[k] < |services|
    ensures |r| <= |selected|
    ensures (forall k :: 0 <= k < |selected| ==> GetState(services[selected[k]], outcomes[selected[k]]).Ok?) ==>
      |r| == |selected|
    ensures forall k :: 0 <= k < |selected| && GetState(services[selected[k]], outcomes[selected[k]]).Ok? ==>
      GetState(services[selected[k]], outcomes[selected[k]]).value in r
    ensures forall j :: 0 <= j < |r| ==> StateOfSelected(services, outcomes, selected, r[j])
  {
    if |selected| == 0 then []
    else
      var rest := SelectedStates(services, outcomes, selected[1..]);
      StateOfSelectedTail(services, outcomes, selected, rest);
      var state := GetState(services[selected[0]], outcomes[selected[0]]);
      if state.Err? then rest
      else
        assert StateOfSelected(services, outcomes, selected, state.value);
        [state.value] + rest
  }

  /** States of the selection after its first index are states of the whole selection. */
  lemma StateOfSelectedTail(services: seq<Service>, outcomes: seq<SpawnOutcome>, selected: seq<nat>, rest: seq<CheckResult>)
    requires |outcomes| == |services| && |selected| > 0
    requires forall k :: 0 <= k < |selected| ==> selected[k] < |services|
    requires forall j :: 0 <= j < |rest| ==> StateOfSelected(services, outcomes, selected[1..], rest[j])
    ensures forall j :: 0 <= j < |rest| ==> StateOfSelected(services, outcomes, selected, rest[j])
  {
    forall j | 0 <= j < |rest|
      ensures StateOfSelected(services, outcomes, selected, rest[j])
    {
      assert StateOfSelected(services, outcomes, selected[1..], rest[j]);
      var k :| 0 <= k < |selected[1..]| &&
        GetState(services[selected[1..][k]], outcomes[selected[1..][k]]) == Ok(rest[j]);
      assert selected[1..][k] == selected[k + 1];
    }
  }

  /** The state list of one selected check: its state if `get_state` returned,
      nothing otherwise. */
  lemma SelectedStatesOfOne(services: seq<Service>, outcomes: seq<SpawnOutcome>, k: nat)
    requires |outcomes| == |services| && k < |services|
    ensures SelectedStates(services, outcomes, [k]) ==
      if GetState(services[k], outcomes[k]).Ok? then [GetState(services[k], outcomes[k]).value] else []
  {
    assert [k][1..] == [];
  }

  /** The states of consecutive selections concatenate, so each selected check
      contributes its own state list, in selection order. */
  lemma {:induction false} SelectedStatesAppend(
    services: seq<Service>, outcomes: seq<SpawnOutcome>, a: seq<nat>, b: seq<nat>)
    requires |outcomes| == |services|
    requires forall k :: 0 <= k < |a| ==> a[k] < |services|
    requires forall k :: 0 <= k < |b| ==> b[k] < |services|
    ensures SelectedStates(services, outcomes, a + b) ==
      SelectedStates(services, outcomes, a) + SelectedStates(services, outcomes, b)
  {
    if |a| > 0 {
      assert (a + b)[1..] == a[1..] + b;
      SelectedStatesAppend(services, outcomes, a[1..], b);
    } else {
      assert a + b == b;
    }
  }

  /** The number of selected checks whose `get_state` returns. */
  function ReturnedCount(services: seq<Service>, outcomes: seq<SpawnOutcome>, selected: seq<nat>): nat
    requires |outcomes| == |services|
    requires forall k :: 0 <= k < |selected| ==> selected[k] < |services|
  {
    if |selected| == 0 then 0
    else
      var last := selected[|selected| - 1];
      (if GetState(services[last], outcomes[last]).Ok? then 1 else 0) +
        ReturnedCount(services, outcomes, selected[..|selected| - 1])
  }

  /** Exactly one state per selected check that returns. */
  lemma {:induction false} SelectedStatesCount(services: seq<Service>, outcomes: seq<SpawnOutcome>, selected: seq<nat>)
    requires |outcomes| == |services|
    requires forall k :: 0 <= k < |selected| ==> selected[k] < |services|
    ensures |SelectedStates(services, outcomes, selected)| == ReturnedCount(services, outcomes, selected)
  {
    if |selected| > 0 {
      var init := selected[..|selected| - 1];
      var last := selected[|selected| - 1];
      assert selected == init + [last];
      SelectedStatesAppend(services, outcomes, init, [last]);
      SelectedStatesOfOne(services, outcomes, last);
      SelectedStatesCount(services, outcomes, init);
    }
  }

  /** `_check_services`: the selected services are checked with the one stamp
      taken when the batch starts. A selected service is stamped exactly when
      its worker completes; the others are left alone. */
  function CheckServices(services: seq<Service>, outcomes: seq<SpawnOutcome>, selected: seq<nat>, stamp: Time)
    : (r: (seq<CheckResult>, seq<Service>))
    requires |outcomes| == |services|
    requires forall k :: 0 <= k < |selected| ==> selected[k] < |services|
    ensures multiset(r.0) == multiset(SelectedStates(services, outcomes, selected))
    ensures |r.1| == |services|
    ensures forall i :: 0 <= i < |services| ==>
      r.1[i] ==
        if i in selected && Completes(services[i], outcomes[i])
        then services[i].(lastTested := Some(stamp))
        else services[i]
  {
    var states := SelectedStates(services, outcomes, selected);
    var stamped := seq(|services|, i requires 0 <= i < |services| =>
      if i in selected then CheckWorker(services[i], outcomes[i], stamp).1 else services[i]);
    (states, stamped)
  }

  /** The periods of the selected services, in selection order. */
  function SelectedPeriods(services: seq<Service>, selected: seq<nat>): (r: seq<real>)
    requires forall k :: 0 <= k < |selected| ==> selected[k] < |services|
    ensures |r| == |selected|
    ensures forall k :: 0 <= k < |selected| ==> r[k] == services[selected[k]].period
  {
    seq(|selected|, k requires 0 <= k < |selected| => services[selected[k]].period)
  }

  /** `max(service.period for service in services)` over the selection. */
  function MaxSelectedPeriod(services: seq<Service>, selected: seq<nat>): (p: real)
    requires |selected| > 0
    requires forall k :: 0 <= k < |selected| ==> selected[k] < |services|
    ensures forall k :: 0 <= k < |selected| ==> services[selected[k]].period <= p
    ensures exists k :: 0 <= k < |selected| && p == services[selected[k]].period
  {
    var periods := SelectedPeriods(services, selected);
    var p := MaxOf(periods);
    assert exists k :: 0 <= k < |selected| && p == services[selected[k]].period by {
      var k :| 0 <= k < |periods| && p == periods[k];
    }
    p
  }

  /** `check`: select every service whose delay at `selectAt` is within the
      largest lag, report the truncated largest period of the selection, and
      check the selection with the stamp `stampAt`. `selectAt` and `stampAt`
      are the two separate clock readings that `check` and `_check_services` take. */
  function CheckPass(services: seq<Service>, outcomes: seq<SpawnOutcome>, selectAt: Time, stampAt: Time)
    : (r: Result<CheckReport, MonitorError>)
    requires |outcomes| == |services|
    ensures r == Err(NoServices) <==> |services| == 0
    ensures r == Err(NothingDue) <==>
      |services| > 0 && forall i :: 0 <= i < |services| ==> !IsDue(services, selectAt, MaxLag(services), i)
    ensures r.Ok? ==> |r.value.services| == |services|
    ensures r.Ok? ==> forall i :: 0 <= i < |services| ==>
      r.value.services[i] ==
        if IsDue(services, selectAt, MaxLag(services), i) && Completes(services[i], outcomes[i])
        then services[i].(lastTested := Some(stampAt))
        else services[i]
    ensures r.Ok? ==> (
      exists i :: 0 <= i < |services| && IsDue(services, selectAt, MaxLag(services), i) &&
        r.value.period == Trunc(services[i].period) &&
        forall j :: 0 <= j < |services| && IsDue(services, selectAt, MaxLag(services), j) ==>
          services[j].period <= services[i].period)
    ensures r.Ok? ==> (multiset(r.value.states) ==
      multiset(SelectedStates(services, outcomes, Selection(services, selectAt, MaxLag(services)))))
  {
    if |services| == 0 then Err(NoServices)
    else
      var maxLag := MaxLag(services);
      var selected := Selection(services, selectAt, maxLag);
      SelectionIsDue(services, selectAt, maxLag);
      if |selected| == 0 then Err(NothingDue)
      else
        var period := MaxSelectedPeriod(services, selected);
        var (states, stamped) := CheckServices(services, outcomes, selected, stampAt);
        ghost var k :| 0 <= k < |selected| && period == services[selected[k]].period;
        assert forall j :: 0 <= j < |services| && IsDue(services, selectAt, maxLag, j) ==>
          services[j].period <= period by {
          forall j | 0 <= j < |services| && IsDue(services, selectAt, maxLag, j)
            ensures services[j].period <= period
          {
            var m :| 0 <= m < |selected| && selected[m] == j;
          }
        }
        Ok(CheckReport(Trunc(period), states, stamped))
  }

  /** The pass selects something exactly when the shortest delay is within
      the largest lag: `check` raises precisely when `sleep_time` at the same
      instant exceeds every lag. */
  lemma {:induction false} SelectsIffSleepTimeWithinLag(
    services: seq<Service>, outcomes: seq<SpawnOutcome>, selectAt: Time, stampAt: Time)
    requires |outcomes| == |services| && |services| > 0
    ensures CheckPass(services, outcomes, selectAt, stampAt).Ok? <==>
      SleepTime(services, selectAt).value <= MaxLag(services)
  {
    var r := CheckPass(services, outcomes, selectAt, stampAt);
    var sleep := SleepTime(services, selectAt).value;
    if r.Ok? {
      var i :| 0 <= i < |services| && IsDue(services, selectAt, MaxLag(services), i);
      assert sleep <= NextUpdateIn(services[i], selectAt);
    } else {
      assert r == Err(NothingDue);
      var i :| 0 <= i < |services| && sleep == NextUpdateIn(services[i], selectAt);
      assert !IsDue(services, selectAt, MaxLag(services), i);
    }
  }

  /** The driver loop's use is safe: when every lag is non-negative and the
      pass starts no earlier than `sleep_time` says, some service is selected. */
  lemma {:induction false} SleepThenCheckSelects(
    services: seq<Service>, outcomes: seq<SpawnOutcome>, asked: Time, selectAt: Time, stampAt: Time)
    requires |outcomes| == |services| && |services| > 0
    requires forall i :: 0 <= i < |services| ==> services[i].lag >= 0.0
    requires selectAt >= asked + SleepTime(services, asked).value
    ensures CheckPass(services, outcomes, selectAt, stampAt).Ok?
  {
    var i :| 0 <= i < |services| && SleepTime(services, asked).value == NextUpdateIn(services[i], asked);
    NextUpdateInElapses(services[i], asked, selectAt);
    assert services[i].lag <= MaxLag(services);
    assert IsDue(services, selectAt, MaxLag(services), i);
  }

  /** The service with the largest lag need not be selected, and then the
      pass raises: period 100, lag 0.1, tested one second ago. */
  lemma MaxLagServiceNotAlwaysSelected()
    ensures var s := Service(100.0, "slow", "/", "check", 0.1, Some(0.0));
      CheckPass([s], [Exited(0, "")], 1.0, 1.0) == Err(NothingDue)
  {
  }

  /** Some service lies inside the max-lag window at `now`, so a pass at `now`
      does not raise. */
  predicate SomeDue(services: seq<Service>, now: Time)
  {
    |services| > 0 && exists i :: 0 <= i < |services| && IsDue(services, now, MaxLag(services), i)
  }

  /** What a successful pass did to the service at index `i`. */
  lemma PassEffectAt(services: seq<Service>, outcomes: seq<SpawnOutcome>, selectAt: Time, stampAt: Time, i: nat)
    requires |outcomes| == |services| && i < |services|
    requires SomeDue(services, selectAt)
    ensures var after := CheckPass(services, outcomes, selectAt, stampAt).value.services;
      |after| == |services| &&
      after[i] ==
        if IsDue(services, selectAt, MaxLag(services), i) && Completes(services[i], outcomes[i])
        then services[i].(lastTested := Some(stampAt))
        else services[i]
  {
  }

  /** A check pass never writes a lag, so the selection window is fixed once
      calibration is over. */
  lemma {:induction false} CheckPassKeepsLags(
    services: seq<Service>, outcomes: seq<SpawnOutcome>, selectAt: Time, stampAt: Time)
    requires |outcomes| == |services|
    requires SomeDue(services, selectAt)
    ensures var after := CheckPass(services, outcomes, selectAt, stampAt).value.services;
      forall i :: 0 <= i < |services| ==> after[i].lag == services[i].lag
    ensures MaxLag(CheckPass(services, outcomes, selectAt, stampAt).value.services) == MaxLag(services)
  {
    var after := CheckPass(services, outcomes, selectAt, stampAt).value.services;
    forall i | 0 <= i < |services|
      ensures after[i].lag == services[i].lag
    {
      PassEffectAt(services, outcomes, selectAt, stampAt, i);
    }
    SameLagsSameMax(after, services);
  }

  /** Services with the same lags, index by index, have the same largest lag. */
  lemma SameLagsSameMax(a: seq<Service>, b: seq<Service>)
    requires |a| == |b| > 0
    requires forall i :: 0 <= i < |a| ==> a[i].lag == b[i].lag
    ensures MaxLag(a) == MaxLag(b)
  {
    assert Lags(a) == Lags(b);
  }

  /** Test stamps never move backward when the batch stamp is no earlier than
      every stamp already recorded. */
  lemma CheckPassStampsMoveForward(
    services: seq<Service>, outcomes: seq<SpawnOutcome>, selectAt: Time, stampAt: Time)
    requires |outcomes| == |services|
    requires SomeDue(services, selectAt)
    requires forall i :: 0 <= i < |services| && services[i].lastTested.Some? ==>
      services[i].lastTested.value <= stampAt
    ensures var after := CheckPass(services, outcomes, selectAt, stampAt).value.services;
      forall i :: 0 <= i < |services| && services[i].lastTested.Some? ==>
        after[i].lastTested.Some? && services[i].lastTested.value <= after[i].lastTested.value
  {
    var after := CheckPass(services, outcomes, selectAt, stampAt).value.services;
    forall i | 0 <= i < |services| && services[i].lastTested.Some?
      ensures after[i].lastTested.Some? && services[i].lastTested.value <= after[i].lastTested.value
    {
      PassEffectAt(services, outcomes, selectAt, stampAt, i);
    }
  }

  /** The due clock of a checked service restarts at the batch stamp: at
      `stampAt` its delay is its whole effective period, however long its
      check took. Unselected services keep their delays. */
  lemma CheckPassRestartsPeriods(
    services: seq<Service>, outcomes: seq<SpawnOutcome>, selectAt: Time, stampAt: Time, now: Time)
    requires |outcomes| == |services|
    requires SomeDue(services, selectAt)
    ensures var after := CheckPass(services, outcomes, selectAt, stampAt).value.services;
      forall i :: 0 <= i < |services| ==>
        if IsDue(services, selectAt, MaxLag(services), i) && Completes(services[i], outcomes[i])
        then NextUpdateIn(after[i], stampAt) == RealPeriod(services[i])
        else NextUpdateIn(after[i], now) == NextUpdateIn(services[i], now)
  {
    var after := CheckPass(services, outcomes, selectAt, stampAt).value.services;
    forall i | 0 <= i < |services|
      ensures if IsDue(services, selectAt, MaxLag(services), i) && Completes(services[i], outcomes[i])
        then NextUpdateIn(after[i], stampAt) == RealPeriod(services[i])
        else NextUpdateIn(after[i], now) == NextUpdateIn(services[i], now)
    {
      PassEffectAt(services, outcomes, selectAt, stampAt, i);
      if IsDue(services, selectAt, MaxLag(services), i) && Completes(services[i], outcomes[i]) {
        NextUpdateInAtStamp(services[i], stampAt);
      }
    }
  }

  /** A due service whose worker dies before the stamp keeps its old stamp,
      so it is selected again by every later pass. */
  lemma {:induction false} CrashedWorkerStaysDue(
    services: seq<Service>, outcomes: seq<SpawnOutcome>, selectAt: Time, stampAt: Time, i: nat, later: Time)
    requires |outcomes| == |services| && i < |services|
    requires IsDue(services, selectAt, MaxLag(services), i) && !Completes(services[i], outcomes[i])
    requires later >= selectAt
    ensures var after := CheckPass(services, outcomes, selectAt, stampAt).value.services;
      |after| == |services| && IsDue(after, later, MaxLag(after), i)
  {
    var after := CheckPass(services, outcomes, selectAt, stampAt).value.services;
    CheckPassKeepsLags(services, outcomes, selectAt, stampAt);
    PassEffectAt(services, outcomes, selectAt, stampAt, i);
    NextUpdateInAntitone(services[i], selectAt, later);
  }

  /** A pass over a single due service: it succeeds, the service is stamped
      exactly when its worker completes, and the states are what its check
      returned. */
  lemma SingleServicePass(s: Service, o: SpawnOutcome, selectAt: Time, stampAt: Time)
    requires IsDue([s], selectAt, MaxLag([s]), 0)
    ensures var r := CheckPass([s], [o], selectAt, stampAt);
      r.Ok? &&
      r.value.services == [if Completes(s, o) then s.(lastTested := Some(stampAt)) else s] &&
      multiset(r.value.states) ==
        if GetState(s, o).Ok? then multiset{GetState(s, o).value} else multiset{}
  {
    SingleServiceStamps(s, o, selectAt, stampAt);
    SingleServiceStates(s, o, selectAt, stampAt);
  }

  /** The services half of `SingleServicePass`. */
  lemma SingleServiceStamps(s: Service, o: SpawnOutcome, selectAt: Time, stampAt: Time)
    requires IsDue([s], selectAt, MaxLag([s]), 0)
    ensures var r := CheckPass([s], [o], selectAt, stampAt);
      r.Ok? && r.value.services == [if Completes(s, o) then s.(lastTested := Some(stampAt)) else s]
  {
    var r := CheckPass([s], [o], selectAt, stampAt);
    assert r.Ok?;
    PassEffectAt([s], [o], selectAt, stampAt, 0);
    assert r.value.services == [r.value.services[0]];
  }

  /** The states half of `SingleServicePass`. */
  lemma SingleServiceStates(s: Service, o: SpawnOutcome, selectAt: Time, stampAt: Time)
    requires IsDue([s], selectAt, MaxLag([s]), 0)
    ensures multiset(CheckPass([s], [o], selectAt, stampAt).value.states) ==
      if GetState(s, o).Ok? then multiset{GetState(s, o).value} else multiset{}
  {
    SingletonSelection(s, selectAt, MaxLag([s]));
    SelectedStatesOfOne([s], [o], 0);
  }

  /** A single service inside the window is the whole selection. */
  lemma SingletonSelection(s: Service, now: Time, window: real)
    requires IsDue([s], now, window, 0)
    ensures Selection([s], now, window) == [0]
  {
    var selected := Selection([s], now, window);
    assert 0 in selected;
    assert |selected| <= 1;
  }

  /** A check that exits 0 with non-ASCII output reports OK, but its worker dies
      building the debug line, so the service stays unstamped. */
  lemma NonAsciiOutputSkipsStamp()
    ensures var s := NewService(10.0, "disk", "/", "check_disk");
      var r := CheckPass([s], [Exited(0, "temp 40°C")], 5.0, 5.0);
      r.Ok? && r.value.services == [s] &&
      multiset(r.value.states) == multiset{CheckResult("disk", OK, "temp 40°C")}
  {
    var s := NewService(10.0, "disk", "/", "check_disk");
    var o := Exited(0, "temp 40°C");
    assert MaxLag([s]) == 0.0;
    assert !IsAscii("temp 40°C") by {
      assert "temp 40°C"[7] as int == 0xB0;
    }
    assert GetState(s, o) == Ok(CheckResult("disk", OK, "temp 40°C"));
    SingleServicePass(s, o, 5.0, 5.0);
  }

  /** Right after construction every never-tested service is still never
      tested, so the first `sleep_time` is zero. */
  lemma CalibratedMonitorIsDue(services: seq<Service>, outcomes: seq<SpawnOutcome>, durations: seq<real>, now: Time)
    requires |outcomes| == |services| && |durations| == |services| && |services| > 0
    requires forall i :: 0 <= i < |services| ==> services[i].lastTested.None?
    ensures SleepTime(Calibrate(services, outcomes, durations).services, now) == Ok(0.0)
  {
  }
}
