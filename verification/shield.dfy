/** One monitoring session end to end: each tick's reading is classified, alert ticks
    produce a report listing the ranked heavy processes and run the mitigation pass
    on them, and the escalation counter decides when the session hibernates. */
module Shield {
  import opened Config
  import opened Processes
  import Sampler
  import Ranker
  import Mitigation
  import opened Escalation

  /** What the host supplies for one tick: the CPU reading, the process snapshot the
      ranker would enumerate, and the answers for the candidate at each rank. */
  datatype Tick = Tick(reading: real, snapshot: seq<Entry>, answers: seq<Mitigation.Oracle>)

  /** What one tick does: a stable message, or an alert report with its heavy list and
      the mitigation outcome for each listed process. */
  datatype Record =
    | Stable(cpuPercent: real)
    | Alert(cpuPercent: real, heavy: seq<ProcessInfo>, outcomes: seq<Mitigation.Outcome>)

  /** A whole session: one record and one counter value per processed tick, and how it ended. */
  datatype Run = Run(records: seq<Record>, counters: seq<nat>, ending: Ending)

  /** The host has an answer for every rank position the ranker can fill. */
  predicate Scripted(t: Tick) {
    |t.answers| >= TOP_K
  }

  predicate AllScripted(ticks: seq<Tick>) {
    forall i :: 0 <= i < |ticks| ==> Scripted(ticks[i])
  }

  /** The alert flag of every tick. */
  function Flags(ticks: seq<Tick>): (f: seq<bool>)
    ensures |f| == |ticks|
    ensures forall i :: 0 <= i < |ticks| ==> (f[i] <==> ticks[i].reading > CPU_THRESHOLD)
  {
    seq(|ticks|, i requires 0 <= i < |ticks| => Sampler.Analyze(ticks[i].reading).isAlert)
  }

  /** One tick's work. */
  function Handle(t: Tick): (r: Record)
    requires Scripted(t)
    ensures r.cpuPercent == t.reading
    ensures r.Alert? <==> t.reading > CPU_THRESHOLD
    ensures r.Alert? ==> r.heavy == Ranker.Rank(t.snapshot) && |r.outcomes| == |r.heavy|
    ensures r.Alert? ==> forall k :: 0 <= k < |r.heavy| ==> r.outcomes[k] == Mitigation.Decide(r.heavy[k], t.answers[k])
  {
    var s := Sampler.Analyze(t.reading);
    if s.isAlert then
      var heavy := Ranker.Rank(t.snapshot);
      Alert(s.cpuPercent, heavy, Mitigation.Mitigate(heavy, t.answers[..|heavy|]))
    else Stable(s.cpuPercent)
  }

  /** The session over a finite stream of ticks. Each processed tick gets a record:
      an alert record with that tick's ranking and mitigation outcomes exactly when its
      reading is above 80%, and a stable record otherwise. The counter after each tick is
      the run of alert readings ending there. The session hibernates at the first tick
      that completes three consecutive readings above 80%; without one, it handles every
      tick and is then stopped. */
  function Guard(ticks: seq<Tick>): (r: Run)
    requires AllScripted(ticks)
    ensures r.counters == Monitor(Flags(ticks)).counters && r.ending == Monitor(Flags(ticks)).ending
    ensures |r.records| == |r.counters| <= |ticks|
    ensures forall t :: 0 <= t < |r.counters| ==> r.counters[t] == TrailingRun(Flags(ticks)[..t + 1])
    ensures forall i :: 0 <= i < |r.records| ==>
              && r.records[i].cpuPercent == ticks[i].reading
              && (r.records[i].Alert? <==> ticks[i].reading > CPU_THRESHOLD)
              && (r.records[i].Alert? ==>
                    && r.records[i].heavy == Ranker.Rank(ticks[i].snapshot)
                    && |r.records[i].outcomes| == |r.records[i].heavy|
                    && forall k :: 0 <= k < |r.records[i].heavy| ==>
                         r.records[i].outcomes[k] == Mitigation.Decide(r.records[i].heavy[k], ticks[i].answers[k]))
    ensures match r.ending
      case Hibernating(t) =>
        && |r.records| == t + 1
        && SustainedAt(ticks, t)
        && forall u :: 0 <= u < t ==> !SustainedAt(ticks, u)
      case Stopped =>
        && |r.records| == |ticks|
        && forall u :: 0 <= u < |ticks| ==> !SustainedAt(ticks, u)
  {
    var f := Flags(ticks);
    var s := Monitor(f);
    CounterIsTrailingRun(f);
    HibernatesAtFirstRun(f);
    assert forall u :: RunEndsAt(f, u) <==> SustainedAt(ticks, u);
    Run(seq(|s.counters|, i requires 0 <= i < |s.counters| => Handle(ticks[i])), s.counters, s.ending)
  }

  /** The limit's worth of consecutive readings above the threshold ends at tick t. */
  predicate SustainedAt(ticks: seq<Tick>, t: int) {
    MAX_CONSECUTIVE - 1 <= t < |ticks| &&
    forall j :: t - MAX_CONSECUTIVE < j <= t ==> ticks[j].reading > CPU_THRESHOLD
  }

  /** The number of alert reports in a session equals the count the escalation loop
      keeps, that is, the alert ticks up to the stop. */
  lemma AlertRecordsAreReports(ticks: seq<Tick>)
    requires AllScripted(ticks)
    ensures var r := Guard(ticks);
      Alerts(seq(|r.records|, i requires 0 <= i < |r.records| => r.records[i].Alert?)) == Monitor(Flags(ticks)).reports
  {
    var r := Guard(ticks);
    var f := Flags(ticks);
    ReportsCountAlerts(f);
    assert seq(|r.records|, i requires 0 <= i < |r.records| => r.records[i].Alert?) == f[..|r.records|];
  }

  /** No report lists a whitelisted process, and no request in a session ever goes to
      a whitelisted process or to one at or below the kill threshold. */
  lemma NoWhitelistedProcessTouched(ticks: seq<Tick>)
    requires AllScripted(ticks)
    ensures var r := Guard(ticks);
      forall i :: 0 <= i < |r.records| && r.records[i].Alert? ==>
        && (forall p :: p in r.records[i].heavy ==> !Whitelisted(p.name))
        && (forall k :: 0 <= k < |r.records[i].heavy| && Mitigation.Requests(r.records[i].outcomes[k]) != [] ==>
              Mitigation.Target(r.records[i].heavy[k]))
  {
    forall t | t in ticks {
      Ranker.RankExcludesWhitelisted(t.snapshot);
    }
  }

  /** A snapshot without a process above the kill threshold yields a ranking without one. */
  lemma RankedBelowKill(entries: seq<Entry>)
    requires forall e :: e in entries && e.Listed? ==> e.info.cpuPercent <= KILL_THRESHOLD
    ensures forall p :: p in Ranker.Rank(entries) ==> p.cpuPercent <= KILL_THRESHOLD
  {
    Ranker.RankFromEligible(entries);
    forall p | p in Ranker.Rank(entries)
      ensures p.cpuPercent <= KILL_THRESHOLD
    {
      assert p in multiset(Ranker.Eligible(entries));
      assert Listed(p) in entries;
    }
  }

  /** Three readings above 80% with every process at or below 90%: three alert reports,
      hibernation at the third tick, and no termination requested. */
  lemma SustainedLoadWithoutHog(ticks: seq<Tick>)
    requires AllScripted(ticks)
    requires |ticks| >= 3
    requires forall i :: 0 <= i < 3 ==> ticks[i].reading > CPU_THRESHOLD
    requires forall i, e :: 0 <= i < 3 && e in ticks[i].snapshot && e.Listed? ==> e.info.cpuPercent <= KILL_THRESHOLD
    ensures var r := Guard(ticks);
      && r.ending == Hibernating(2)
      && r.counters == [1, 2, 3]
      && |r.records| == 3
      && forall i :: 0 <= i < 3 ==>
           (r.records[i].Alert? && forall o :: o in r.records[i].outcomes ==> o == Mitigation.NoAction)
  {
    var f := Flags(ticks);
    assert f[..3] == [true, true, true];
    assert Drive(f, 0, 0) == Session([1, 2, 3], Hibernating(2), 3) by {
      assert Drive(f, 2, 2) == Session([3], Hibernating(2), 1);
      assert Drive(f, 1, 1) == Session([2, 3], Hibernating(2), 2);
    }
    var r := Guard(ticks);
    forall i | 0 <= i < 3
      ensures forall o :: o in r.records[i].outcomes ==> o == Mitigation.NoAction
    {
      RankedBelowKill(ticks[i].snapshot);
    }
  }

  /** Readings 85, 70, 85, 85, 85: counters 1, 0, 1, 2, 3 and hibernation at the fifth
      tick, not earlier. */
  lemma StableTickResetsProgress(ticks: seq<Tick>)
    requires AllScripted(ticks)
    requires |ticks| == 5
    requires ticks[0].reading == 85.0 && ticks[1].reading == 70.0
    requires ticks[2].reading == 85.0 && ticks[3].reading == 85.0 && ticks[4].reading == 85.0
    ensures Guard(ticks).counters == [1, 0, 1, 2, 3]
    ensures Guard(ticks).ending == Hibernating(4)
    ensures |Guard(ticks).records| == 5
  {
    var f := Flags(ticks);
    assert f == [true, false, true, true, true] by {
      assert f[0] && !f[1] && f[2] && f[3] && f[4];
    }
    ResetThenHibernate();
  }
}
