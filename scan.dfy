/**
 * The bookkeeping of `process_scan` in main.py, run sequentially: one task is
 * submitted per port in port order, the completions are then consumed in the
 * order the pool finishes them, each advancing the progress bar by one, and
 * the closing line names either the range or the single port.
 *
 * The pool's completion order and each task's fate are inputs: `order[k]` is
 * the index of the k-th future that `as_completed` yields, and `outcomes[f]`
 * says whether future `f` returned or ended in an exception.
 */
module Scan {
  import opened PyText
  import opened Ports

  /** What `future.result()` does for one probe task. */
  datatype TaskOutcome = Returned | Raised

  /** The closing line: "from ports A through B", or "@ port P". */
  datatype Summary =
    | RangeSummary(target: string, first: int, last: int)
    | PortSummary(target: string, port: int)
  {
    function Text(): string {
      match this
      case RangeSummary(t, a, b) =>
        "Scanning Success! Scanned " + t + " from ports " + IntStr(a) + " through " + IntStr(b)
      case PortSummary(t, p) =>
        "Scanning Success! Scanned " + t + " @ port " + IntStr(p)
    }
  }

  /**
   * How the scan ends: with its summary line, or with the exception of the
   * task that probed `port` escaping `process_scan`.
   */
  datatype ScanOutcome = Finished(summary: Summary) | Aborted(port: int)

  /**
   * The observable state when `process_scan` ends: the ports submitted (one
   * future each, in submission order), the progress bar's label, total and
   * completed count, and the outcome.
   */
  datatype ScanReport = ScanReport(submitted: seq<int>, description: string, total: nat, advanced: nat, outcome: ScanOutcome)

  /** The progress-bar task: a label, a total and a completed count that only grows. */
  class ProgressTask {
    var description: string
    var total: nat
    var completed: nat

    constructor (description: string, total: nat)
      ensures this.description == description && this.total == total && completed == 0
    {
      this.description := description;
      this.total := total;
      completed := 0;
    }

    method Advance(amount: nat)
      modifies this
      ensures description == old(description) && total == old(total)
      ensures completed == old(completed) + amount
    {
      completed := completed + amount;
    }
  }

  function Indices(n: nat): seq<nat> {
    seq(n, i requires 0 <= i < n => i as nat)
  }

  /**
   * `order` is an order in which `as_completed` may yield the `n` futures:
   * only submitted futures, and a permutation of them.
   */
  predicate IsCompletionOrder(order: seq<nat>, n: nat) {
    && (forall k :: 0 <= k < |order| ==> order[k] < n)
    && multiset(order) == multiset(Indices(n))
  }

  /** The progress label, "Progress of ports A - B: ". */
  function ProgressLabel(ports: PortRange): string {
    "[cyan]Progress of ports " + IntStr(ports.start) + " - " + IntStr(ports.stop - 1) + ": "
  }

  /** `len(ports) > 1` picks the range wording. */
  function ChooseSummary(targetIp: string, ports: PortRange): (s: Summary)
    ensures s.target == targetIp
    ensures s.RangeSummary? <==> |ports.Ports()| > 1
    ensures s.RangeSummary? ==> s.first == ports.Ports()[0] && s.last == ports.Ports()[|ports.Ports()| - 1]
    ensures s.PortSummary? ==> s.port == ports.start && (|ports.Ports()| == 1 ==> ports.Ports() == [s.port])
  {
    if ports.Len() > 1 then RangeSummary(targetIp, ports.start, ports.stop - 1)
    else PortSummary(targetIp, ports.start)
  }

  /**
   * The position in the completion order of the first future whose result
   * is an exception, or `|order|` when there is none.
   */
  function FirstRaise(order: seq<nat>, outcomes: seq<TaskOutcome>): (k: nat)
    requires forall j :: 0 <= j < |order| ==> order[j] < |outcomes|
    ensures k <= |order|
    ensures forall j :: 0 <= j < k ==> outcomes[order[j]] == Returned
    ensures k < |order| ==> outcomes[order[k]] == Raised
    decreases |order|
  {
    if |order| == 0 then 0
    else if outcomes[order[0]] == Raised then 0
    else
      var rest := FirstRaise(order[1..], outcomes);
      assert forall j :: 0 <= j < 1 + rest ==> outcomes[order[j]] == Returned by {
        forall j | 0 <= j < 1 + rest
          ensures outcomes[order[j]] == Returned
        {
          if j > 0 {
            assert order[j] == order[1..][j - 1];
          }
        }
      }
      assert 1 + rest < |order| ==> order[1 + rest] == order[1..][rest];
      1 + rest
  }

  /**
   * Progress advances: one per future consumed, the raising one included,
   * since the bar is advanced before `future.result()` re-raises.
   */
  function Advances(order: seq<nat>, outcomes: seq<TaskOutcome>): nat
    requires forall j :: 0 <= j < |order| ==> order[j] < |outcomes|
  {
    var k := FirstRaise(order, outcomes);
    if k < |order| then k + 1 else k
  }

  function Outcome(targetIp: string, ports: PortRange, order: seq<nat>, outcomes: seq<TaskOutcome>): ScanOutcome
    requires |outcomes| == ports.Len()
    requires forall j :: 0 <= j < |order| ==> order[j] < |outcomes|
  {
    var k := FirstRaise(order, outcomes);
    if k < |order| then Aborted(ports.Ports()[order[k]])
    else Finished(ChooseSummary(targetIp, ports))
  }

  predicate NoTaskRaises(outcomes: seq<TaskOutcome>) {
    forall f :: 0 <= f < |outcomes| ==> outcomes[f] == Returned
  }

  /**
   * Submission loop, then completion loop. With no exception every future is
   * consumed and the bar ends at its total; otherwise the scan stops at the
   * first exception, after advancing the bar for it.
   */
  method ProcessScan(targetIp: string, ports: PortRange, order: seq<nat>, outcomes: seq<TaskOutcome>)
    returns (report: ScanReport)
    requires |outcomes| == ports.Len()
    requires IsCompletionOrder(order, |outcomes|)
    ensures report.submitted == ports.Ports()
    ensures report.description == ProgressLabel(ports)
    ensures report.total == |report.submitted|
    ensures report.advanced == Advances(order, outcomes)
    ensures report.outcome == Outcome(targetIp, ports, order, outcomes)
    ensures NoTaskRaises(outcomes) <==> report.outcome.Finished?
    ensures NoTaskRaises(outcomes) ==> report.advanced == report.total
  {
    var progress := new ProgressTask(ProgressLabel(ports), ports.Len());
    var futures: seq<int> := [];
    var i := 0;
    while i < ports.Len()
      invariant 0 <= i <= ports.Len()
      invariant futures == ports.Ports()[..i]
    {
      futures := futures + [ports.start + i];
      i := i + 1;
    }
    assert futures == ports.Ports();
    CompletionCountsEachFutureOnce(order, outcomes);

    var k := 0;
    while k < |order|
      invariant k <= FirstRaise(order, outcomes)
      invariant progress.description == ProgressLabel(ports)
      invariant progress.total == ports.Len() && progress.completed == k
    {
      progress.Advance(1);
      var f := order[k];
      if outcomes[f] == Raised {
        report := ScanReport(futures, progress.description, progress.total, progress.completed, Aborted(futures[f]));
        return;
      }
      k := k + 1;
    }
    report := ScanReport(futures, progress.description, progress.total, progress.completed, Finished(ChooseSummary(targetIp, ports)));
  }

  lemma {:induction false} IndicesOnce(n: nat, v: nat)
    ensures multiset(Indices(n))[v] == if v < n then 1 else 0
  {
    if n > 0 {
      IndicesOnce(n - 1, v);
      assert Indices(n) == Indices(n - 1) + [n - 1];
    }
  }

  /** `as_completed` yields every submitted future, and none of them twice. */
  lemma CompletionOrderIsPermutation(order: seq<nat>, n: nat)
    requires IsCompletionOrder(order, n)
    ensures |order| == n
    ensures forall f :: 0 <= f < n ==> f in order
    ensures forall j, k :: 0 <= j < k < |order| ==> order[j] != order[k]
  {
    assert |multiset(order)| == |multiset(Indices(n))|;
    forall f | 0 <= f < n
      ensures f in order
    {
      IndicesOnce(n, f);
      assert f in multiset(order);
    }
    forall j, k | 0 <= j < k < |order|
      ensures order[j] != order[k]
    {
      if order[j] == order[k] {
        var v := order[j];
        assert order == order[..k] + order[k..];
        assert order[j] == order[..k][j];
        assert order[k..][0] == v;
        assert multiset(order)[v] == multiset(order[..k])[v] + multiset(order[k..])[v];
        IndicesOnce(n, v);
        assert false;
      }
    }
  }

  /**
   * With no exception the bar is advanced once per submitted future; with one,
   * it is advanced for the futures consumed up to and including the first
   * that raised, and that future's port is the one reported.
   */
  lemma CompletionCountsEachFutureOnce(order: seq<nat>, outcomes: seq<TaskOutcome>)
    requires IsCompletionOrder(order, |outcomes|)
    ensures NoTaskRaises(outcomes) ==> Advances(order, outcomes) == |outcomes|
    ensures !NoTaskRaises(outcomes) ==>
      var a := Advances(order, outcomes);
      && 1 <= a <= |outcomes|
      && outcomes[order[a - 1]] == Raised
      && (forall j :: 0 <= j < a - 1 ==> outcomes[order[j]] == Returned)
  {
    CompletionOrderIsPermutation(order, |outcomes|);
    if !NoTaskRaises(outcomes) {
      var f :| 0 <= f < |outcomes| && outcomes[f] == Raised;
      assert f in order;
      var p :| 0 <= p < |order| && order[p] == f;
      assert FirstRaise(order, outcomes) <= p;
    }
  }

  /** The closing line of a scan over a parsed "a-b": range wording only when a < b. */
  lemma ParsedRangeSummary(targetIp: string, a: nat, b: nat)
    requires InBounds(a) && InBounds(b) && a <= b
    ensures ParsePorts(Str(a) + "-" + Str(b)).Ok?
    ensures ChooseSummary(targetIp, ParsePorts(Str(a) + "-" + Str(b)).value) ==
      if a < b then RangeSummary(targetIp, a, b) else PortSummary(targetIp, a)
  {
    RangeText(a, b);
  }

  /** The closing line of a scan over a parsed single port names that port. */
  lemma ParsedPortSummary(targetIp: string, p: nat)
    requires InBounds(p)
    ensures ParsePorts(Str(p)).Ok?
    ensures ChooseSummary(targetIp, ParsePorts(Str(p)).value) == PortSummary(targetIp, p)
  {
    SinglePortText(p);
  }
}
