/** The active-defense pass over the ranked candidates: for each one, in rank order,
    no action, a whitelist skip, a graceful terminate followed by a forceful kill only
    if the process survived the grace period, or a caught lookup failure. */
module Mitigation {
  import opened Config
  import opened Processes
  import Ranker

  /** The call that raised: looking the process up, terminating it, or killing it. */
  datatype Stage = AtLookup | AtTerminate | AtKill

  /** Whether a call on this candidate raises, and where. */
  datatype FailPoint = Never | Raises(stage: Stage, error: ProcessError)

  /** The host's answers for one candidate: where (if anywhere) a call raises, and
      whether the process is still running once the grace period is over. */
  datatype Oracle = Oracle(failsAt: FailPoint, runningAfterGrace: bool)

  /** The decision and result for one candidate. */
  datatype Outcome =
    | NoAction
    | SkippedWhitelisted
    | Terminated
    | Killed
    | Caught(stage: Stage, error: ProcessError)

  /** The termination requests one outcome issued, in order. */
  datatype Request = Graceful | Forceful

  function Requests(o: Outcome): seq<Request> {
    match o
    case Terminated => [Graceful]
    case Killed => [Graceful, Forceful]
    case Caught(AtTerminate, _) => [Graceful]
    case Caught(AtKill, _) => [Graceful, Forceful]
    case _ => []
  }

  /** Candidates that the pass must try to terminate. */
  predicate Target(p: ProcessInfo) {
    p.cpuPercent > KILL_THRESHOLD && !Whitelisted(p.name)
  }

  /** Decides one candidate. */
  function Decide(p: ProcessInfo, o: Oracle): (r: Outcome)
    ensures r == NoAction <==> p.cpuPercent <= KILL_THRESHOLD
    ensures r == SkippedWhitelisted <==> p.cpuPercent > KILL_THRESHOLD && Whitelisted(p.name)
    ensures Requests(r) != [] ==> Target(p)
    ensures Requests(r) == [] || Requests(r) == [Graceful] || Requests(r) == [Graceful, Forceful]
    ensures Forceful in Requests(r) ==> o.runningAfterGrace
    ensures Target(p) && o.failsAt == Never ==>
              Requests(r) == (if o.runningAfterGrace then [Graceful, Forceful] else [Graceful])
    ensures r.Caught? ==> o.failsAt == Raises(r.stage, r.error)
    ensures r.Caught? <==>
              Target(p) && o.failsAt.Raises? && (o.failsAt.stage != AtKill || o.runningAfterGrace)
    ensures Target(p) && o.failsAt.Raises? && o.failsAt.stage == AtKill && !o.runningAfterGrace ==>
              r == Terminated
  {
    if p.cpuPercent <= KILL_THRESHOLD then NoAction
    else if Whitelisted(p.name) then SkippedWhitelisted
    else match o.failsAt
      case Raises(AtLookup, e) => Caught(AtLookup, e)
      case Raises(AtTerminate, e) => Caught(AtTerminate, e)
      case Raises(AtKill, e) => if o.runningAfterGrace then Caught(AtKill, e) else Terminated
      case Never => if o.runningAfterGrace then Killed else Terminated
  }

  /** The whole pass: one outcome per candidate, in rank order; an error on one
      candidate leaves the decisions for the others unchanged. */
  function Mitigate(candidates: seq<ProcessInfo>, answers: seq<Oracle>): (r: seq<Outcome>)
    requires |answers| == |candidates|
    ensures |r| == |candidates|
    ensures forall i :: 0 <= i < |r| ==> r[i] == Decide(candidates[i], answers[i])
  {
    if candidates == [] then []
    else [Decide(candidates[0], answers[0])] + Mitigate(candidates[1..], answers[1..])
  }

  /** One termination request, addressed to a process id. */
  datatype Signal = Signal(pid: int, kind: Request)

  function Address(pid: int, rs: seq<Request>): (t: seq<Signal>)
    ensures |t| == |rs|
    ensures forall k :: 0 <= k < |t| ==> t[k] == Signal(pid, rs[k])
  {
    if rs == [] then [] else [Signal(pid, rs[0])] + Address(pid, rs[1..])
  }

  /** Every request the pass sends, in the order it sends them. */
  function SignalTrace(candidates: seq<ProcessInfo>, outcomes: seq<Outcome>): seq<Signal>
    requires |outcomes| == |candidates|
  {
    if candidates == [] then []
    else Address(candidates[0].pid, Requests(outcomes[0])) + SignalTrace(candidates[1..], outcomes[1..])
  }

  /** Every forceful request directly follows a graceful one to the same process. */
  predicate GracefulFirst(t: seq<Signal>) {
    forall k :: 0 <= k < |t| && t[k].kind == Forceful ==> k > 0 && t[k - 1] == Signal(t[k].pid, Graceful)
  }

  lemma GracefulFirstAppend(a: seq<Signal>, b: seq<Signal>)
    requires GracefulFirst(a) && GracefulFirst(b)
    ensures GracefulFirst(a + b)
  {
    forall k | 0 <= k < |a + b| && (a + b)[k].kind == Forceful
      ensures k > 0 && (a + b)[k - 1] == Signal((a + b)[k].pid, Graceful)
    {
      if k >= |a| {
        assert (a + b)[k] == b[k - |a|];
        if k > |a| {
          assert (a + b)[k - 1] == b[k - 1 - |a|];
        }
      }
    }
  }

  /** In the whole pass, a process is killed forcefully only right after it was asked
      to terminate gracefully. */
  lemma {:induction false} ForcefulFollowsGraceful(candidates: seq<ProcessInfo>, answers: seq<Oracle>)
    requires |answers| == |candidates|
    ensures GracefulFirst(SignalTrace(candidates, Mitigate(candidates, answers)))
  {
    if candidates != [] {
      var outcomes := Mitigate(candidates, answers);
      assert outcomes[1..] == Mitigate(candidates[1..], answers[1..]);
      ForcefulFollowsGraceful(candidates[1..], answers[1..]);
      var head := Address(candidates[0].pid, Requests(outcomes[0]));
      assert GracefulFirst(head);
      GracefulFirstAppend(head, SignalTrace(candidates[1..], outcomes[1..]));
    }
  }

  /** The process ids of the candidates above the kill threshold that are not whitelisted. */
  function TargetPids(candidates: seq<ProcessInfo>): set<int> {
    set i | 0 <= i < |candidates| && Target(candidates[i]) :: candidates[i].pid
  }

  /** Every request in the pass goes to a candidate above the kill threshold whose
      name is not whitelisted. */
  lemma {:induction false} OnlyTargetsSignalled(candidates: seq<ProcessInfo>, answers: seq<Oracle>)
    requires |answers| == |candidates|
    ensures forall g :: g in SignalTrace(candidates, Mitigate(candidates, answers)) ==> g.pid in TargetPids(candidates)
  {
    if candidates != [] {
      var outcomes := Mitigate(candidates, answers);
      assert outcomes[1..] == Mitigate(candidates[1..], answers[1..]);
      OnlyTargetsSignalled(candidates[1..], answers[1..]);
      var head := Address(candidates[0].pid, Requests(outcomes[0]));
      assert head != [] ==> candidates[0].pid in TargetPids(candidates);
      forall i | 0 <= i < |candidates[1..]| && Target(candidates[1..][i])
        ensures candidates[1..][i].pid in TargetPids(candidates)
      {
        assert candidates[1..][i] == candidates[i + 1];
      }
      assert TargetPids(candidates[1..]) <= TargetPids(candidates);
    }
  }

  /** Candidates coming from the ranker are never whitelisted, so on them the
      whitelist branch of the pass never fires. */
  lemma RankedNeverSkipped(entries: seq<Entry>, answers: seq<Oracle>)
    requires |answers| == |Ranker.Rank(entries)|
    ensures forall o :: o in Mitigate(Ranker.Rank(entries), answers) ==> o != SkippedWhitelisted
  {
    var r := Ranker.Rank(entries);
    Ranker.RankExcludesWhitelisted(entries);
    forall o | o in Mitigate(r, answers)
      ensures o != SkippedWhitelisted
    {
      var i :| 0 <= i < |r| && Mitigate(r, answers)[i] == o;
      assert r[i] in r;
    }
  }

  /** A non-whitelisted candidate at 95%: a graceful request alone when it exits in
      the grace period, followed by a forceful one when it does not. */
  lemma HeavyProcessEscalates()
    ensures var p := ProcessInfo(4242, "miner.exe", 95.0);
      && Requests(Decide(p, Oracle(Never, false))) == [Graceful]
      && Requests(Decide(p, Oracle(Never, true))) == [Graceful, Forceful]
      && Decide(ProcessInfo(4, "SYSTEM", 95.0), Oracle(Never, true)) == SkippedWhitelisted
  {
    var p := ProcessInfo(4242, "miner.exe", 95.0);
    assert Target(p) by {
      forall w | w in WHITELIST
        ensures Text.Lower(w) != Text.Lower("miner.exe")
      {
        assert Text.Lower(w)[0] == Text.LowerChar(w[0]);
      }
    }
    Processes.SystemInAnyCase();
  }
}
