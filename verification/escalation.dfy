/** The escalation state machine of the monitoring loop: a consecutive-alert counter
    that climbs on alerts, resets on any stable tick, and ends the session
    (protective hibernation) as soon as it reaches MAX_CONSECUTIVE. */
module Escalation {
  import opened Config

  /** How a session ends: hibernation at a tick, or stopped from outside after the
      last supplied tick. */
  datatype Ending = Hibernating(tick: nat) | Stopped

  /** The counter after each processed tick, how the session ended, and how many
      alert reports (each with its mitigation pass) were made. */
  datatype Session = Session(counters: seq<nat>, ending: Ending, reports: nat)

  /** One tick's counter update. */
  function Advance(counter: nat, isAlert: bool): nat {
    if isAlert then counter + 1 else 0
  }

  /** Length of the run of alerts that ends the sequence: every sample in the last
      k is an alert, and the one before them (if any) is not. */
  function TrailingRun(flags: seq<bool>): (k: nat)
    ensures k <= |flags|
    ensures forall j :: |flags| - k <= j < |flags| ==> flags[j]
    ensures k < |flags| ==> !flags[|flags| - k - 1]
  {
    if flags == [] then 0
    else if flags[|flags| - 1] then TrailingRun(flags[..|flags| - 1]) + 1
    else 0
  }

  /** The number of alert samples in a sequence. */
  function Alerts(flags: seq<bool>): (n: nat)
    ensures n <= |flags|
  {
    if flags == [] then 0
    else Alerts(flags[..|flags| - 1]) + (if flags[|flags| - 1] then 1 else 0)
  }

  /** Ticks t-MAX_CONSECUTIVE+1 .. t are all alerts. */
  predicate RunEndsAt(flags: seq<bool>, t: int) {
    MAX_CONSECUTIVE - 1 <= t < |flags| &&
    forall j :: t - MAX_CONSECUTIVE < j <= t ==> flags[j]
  }

  /** The fold from tick i on, with `counter` the value left by tick i-1. */
  function Drive(flags: seq<bool>, i: nat, counter: nat): Session
    requires i <= |flags|
    decreases |flags| - i
  {
    if i == |flags| then Session([], Stopped, 0)
    else
      var c := Advance(counter, flags[i]);
      var reported := if flags[i] then 1 else 0;
      if c >= MAX_CONSECUTIVE then Session([c], Hibernating(i), reported)
      else
        var rest := Drive(flags, i + 1, c);
        Session([c] + rest.counters, rest.ending, reported + rest.reports)
  }

  /** The whole session for a finite stream of alert flags. */
  function Monitor(flags: seq<bool>): Session {
    Drive(flags, 0, 0)
  }

  /** The run of alerts ending at tick t is the one ending at t-1 advanced by tick t. */
  lemma TrailingRunStep(flags: seq<bool>, t: nat)
    requires t < |flags|
    ensures TrailingRun(flags[..t + 1]) == Advance(TrailingRun(flags[..t]), flags[t])
  {
    assert flags[..t + 1][..t] == flags[..t];
  }

  /** Likewise for the alert count. */
  lemma AlertsStep(flags: seq<bool>, t: nat)
    requires t < |flags|
    ensures Alerts(flags[..t + 1]) == Alerts(flags[..t]) + (if flags[t] then 1 else 0)
  {
    assert flags[..t + 1][..t] == flags[..t];
  }

  /** The counter reaches the limit at tick t exactly when the limit's worth of
      consecutive alerts ends at t. */
  lemma LimitIffRun(flags: seq<bool>, t: nat)
    requires t < |flags|
    ensures TrailingRun(flags[..t + 1]) >= MAX_CONSECUTIVE <==> RunEndsAt(flags, t)
  {
  }

  /** Where the fold from tick i stops and how long its trace is. */
  lemma {:induction false} DriveShape(flags: seq<bool>, i: nat, counter: nat)
    requires i <= |flags|
    ensures var s := Drive(flags, i, counter);
      && (s.ending.Hibernating? ==> i <= s.ending.tick < |flags| && |s.counters| == s.ending.tick + 1 - i)
      && (s.ending.Stopped? ==> |s.counters| == |flags| - i)
    decreases |flags| - i
  {
    if i < |flags| {
      DriveShape(flags, i + 1, Advance(counter, flags[i]));
    }
  }

  /** The fold from tick i, started from the trailing run before i, records at its
      j-th entry the trailing run after tick i+j. */
  lemma {:induction false} DriveCounterAt(flags: seq<bool>, i: nat, counter: nat, j: nat)
    requires i <= |flags|
    requires counter == TrailingRun(flags[..i])
    requires j < |Drive(flags, i, counter).counters|
    ensures i + j < |flags|
    ensures Drive(flags, i, counter).counters[j] == TrailingRun(flags[..i + j + 1])
    decreases j
  {
    var c := Advance(counter, flags[i]);
    TrailingRunStep(flags, i);
    if j > 0 {
      DriveCounterAt(flags, i + 1, c, j - 1);
    }
  }

  /** Started below the limit, the fold never records a value above it, and only its
      last entry can reach it. */
  lemma {:induction false} DriveBoundedAt(flags: seq<bool>, i: nat, counter: nat, j: nat)
    requires i <= |flags|
    requires counter < MAX_CONSECUTIVE
    requires j < |Drive(flags, i, counter).counters|
    ensures Drive(flags, i, counter).counters[j] <= MAX_CONSECUTIVE
    ensures j + 1 < |Drive(flags, i, counter).counters| ==> Drive(flags, i, counter).counters[j] < MAX_CONSECUTIVE
    decreases j
  {
    if j > 0 {
      DriveBoundedAt(flags, i + 1, Advance(counter, flags[i]), j - 1);
    }
  }

  /** The fold from tick i stops at a tick completing a run, and no earlier tick from
      i on completes one. */
  lemma {:induction false} DriveStops(flags: seq<bool>, i: nat, counter: nat)
    requires i <= |flags|
    requires counter == TrailingRun(flags[..i])
    requires counter < MAX_CONSECUTIVE
    ensures var s := Drive(flags, i, counter);
      && (s.ending.Hibernating? ==> RunEndsAt(flags, s.ending.tick))
      && (s.ending.Hibernating? ==> forall t :: i <= t < s.ending.tick ==> !RunEndsAt(flags, t))
      && (s.ending.Stopped? ==> forall t :: i <= t < |flags| ==> !RunEndsAt(flags, t))
    decreases |flags| - i
  {
    if i < |flags| {
      var c := Advance(counter, flags[i]);
      TrailingRunStep(flags, i);
      LimitIffRun(flags, i);
      if c < MAX_CONSECUTIVE {
        DriveStops(flags, i + 1, c);
        DriveShape(flags, i + 1, c);
      }
    }
  }

  /** The fold from tick i reports once per alert tick it processes. */
  lemma {:induction false} DriveReports(flags: seq<bool>, i: nat, counter: nat)
    requires i <= |flags|
    ensures var s := Drive(flags, i, counter);
      i + |s.counters| <= |flags| && s.reports + Alerts(flags[..i]) == Alerts(flags[..i + |s.counters|])
    decreases |flags| - i
  {
    DriveShape(flags, i, counter);
    if i < |flags| {
      var c := Advance(counter, flags[i]);
      AlertsStep(flags, i);
      if c < MAX_CONSECUTIVE {
        DriveReports(flags, i + 1, c);
      }
    }
  }

  /** After every processed tick the counter equals the length of the trailing run of
      alerts; the trace covers every tick up to the stop. */
  lemma CounterIsTrailingRun(flags: seq<bool>)
    ensures var s := Monitor(flags);
      && |s.counters| <= |flags|
      && forall t :: 0 <= t < |s.counters| ==> s.counters[t] == TrailingRun(flags[..t + 1])
  {
    DriveShape(flags, 0, 0);
    forall t | 0 <= t < |Monitor(flags).counters|
      ensures Monitor(flags).counters[t] == TrailingRun(flags[..t + 1])
    {
      DriveCounterAt(flags, 0, 0, t);
    }
  }

  /** Any stable tick resets the counter to exactly 0; an alert tick adds exactly one
      to the previous tick's value. */
  lemma CounterResetsOrClimbs(flags: seq<bool>, t: nat)
    requires t < |flags| && t < |Monitor(flags).counters|
    ensures var c := Monitor(flags).counters;
      && (!flags[t] ==> c[t] == 0)
      && (flags[t] ==> c[t] == (if t == 0 then 1 else c[t - 1] + 1))
  {
    CounterIsTrailingRun(flags);
    TrailingRunStep(flags, t);
  }

  /** The session hibernates at the first tick that completes MAX_CONSECUTIVE
      consecutive alerts, and never earlier; without such a tick it runs through
      every supplied tick. */
  lemma HibernatesAtFirstRun(flags: seq<bool>)
    ensures var s := Monitor(flags);
      match s.ending
      case Hibernating(t) =>
        && t < |flags| && |s.counters| == t + 1
        && RunEndsAt(flags, t)
        && forall u :: 0 <= u < t ==> !RunEndsAt(flags, u)
      case Stopped =>
        && |s.counters| == |flags|
        && forall u :: 0 <= u < |flags| ==> !RunEndsAt(flags, u)
  {
    DriveShape(flags, 0, 0);
    DriveStops(flags, 0, 0);
  }

  /** Every alert tick up to and including the stopping one is reported once. */
  lemma ReportsCountAlerts(flags: seq<bool>)
    ensures var s := Monitor(flags);
      |s.counters| <= |flags| && s.reports == Alerts(flags[..|s.counters|])
  {
    DriveReports(flags, 0, 0);
  }

  /** The counter never exceeds the limit. */
  lemma CounterBounded(flags: seq<bool>)
    ensures forall t :: 0 <= t < |Monitor(flags).counters| ==> Monitor(flags).counters[t] <= MAX_CONSECUTIVE
  {
    forall t | 0 <= t < |Monitor(flags).counters|
      ensures Monitor(flags).counters[t] <= MAX_CONSECUTIVE
    {
      DriveBoundedAt(flags, 0, 0, t);
    }
  }

  /** Alerts, stable, then three alerts: counters 1, 0, 1, 2, 3 and hibernation at the
      fifth tick (index 4), after four reports. */
  lemma ResetThenHibernate()
    ensures Monitor([true, false, true, true, true]) == Session([1, 0, 1, 2, 3], Hibernating(4), 4)
  {
  }

  /** The session loop as the source writes it: one pass per tick, stopping when the
      counter reaches the limit. */
  method Escalate(flags: seq<bool>) returns (s: Session)
    ensures s == Monitor(flags)
  {
    var counter: nat := 0;
    var counters: seq<nat> := [];
    var reports: nat := 0;
    var i := 0;
    while i < |flags|
      invariant i <= |flags|
      invariant var d := Drive(flags, i, counter);
        Monitor(flags) == Session(counters + d.counters, d.ending, reports + d.reports)
      decreases |flags| - i
    {
      ghost var here := Drive(flags, i, counter);
      if flags[i] {
        counter := counter + 1;
        reports := reports + 1;
      } else {
        counter := 0;
      }
      counters := counters + [counter];
      if counter >= MAX_CONSECUTIVE {
        assert here == Session([counter], Hibernating(i), if flags[i] then 1 else 0);
        return Session(counters, Hibernating(i), reports);
      }
      ghost var next := Drive(flags, i + 1, counter);
      assert here == Session([counter] + next.counters, next.ending, (if flags[i] then 1 else 0) + next.reports);
      assert counters + next.counters == counters[..|counters| - 1] + ([counter] + next.counters);
      i := i + 1;
    }
    s := Session(counters, Stopped, reports);
  }
}
