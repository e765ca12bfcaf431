/** The site-health runner (src/utils/siteHealth.js `SiteHealthChecker`): a
    registry of named probes run one after another, a results object keyed by
    check name, a re-entrancy flag, and a summary with a score and an overall
    status. A probe's behaviour is an input: `exec` says what running a probe
    yields (its result and measured time, or the message of what it threw),
    and `now` is the timestamp the run records. */
module SiteHealth {
  import opened Common
  import opened JsObject
  import opened Json

  /** A status string other than the three the summary recognises. */
  type OtherText = t: string | t != "pass" && t != "warn" && t != "fail" witness ""

  /** A probe may report any status string; only three are recognised, and
      each string has exactly one representation. */
  datatype Status = Pass | Warn | Fail | OtherStatus(text: OtherText)

  /** The JavaScript string a status stands for. */
  function StatusText(st: Status): string {
    match st
    case Pass => "pass"
    case Warn => "warn"
    case Fail => "fail"
    case OtherStatus(t) => t
  }

  /** The status a probe's `status` string denotes. */
  function StatusOf(text: string): (st: Status)
    ensures StatusText(st) == text
    ensures st.Pass? <==> text == "pass"
    ensures st.Warn? <==> text == "warn"
    ensures st.Fail? <==> text == "fail"
  {
    if text == "pass" then Pass
    else if text == "warn" then Warn
    else if text == "fail" then Fail
    else OtherStatus(text)
  }

  /** The encoding is faithful: two statuses are equal exactly when they
      stand for the same string, so `r.status === 'pass'` holds exactly for
      `Pass`. */
  lemma StatusTextInjective(a: Status, b: Status)
    ensures StatusText(a) == StatusText(b) <==> a == b
    ensures StatusOf(StatusText(a)) == a
  {
  }

  /** What a probe resolves to: `{ status, message, data }`. */
  datatype ProbeResult = ProbeResult(status: Status, message: string, data: Json)

  /** Running a probe either returns a result object (after a measured
      time), resolves to `null` or `undefined`, so that reading
      `result.status` throws a TypeError with the given message, throws an
      error with the given message, or rejects with `null` or `undefined`
      itself, so that the catch block's own `error.message` throws. */
  datatype ProbeOutcome =
    | Returned(result: ProbeResult, elapsed: real)
    | ResolvedEmpty(typeError: string)
    | Threw(error: string)
    | ThrewNullish
  {
    /** The awaited probe settled, so `lastRun` is set before the record is
        built. */
    predicate Resolved() {
      Returned? || ResolvedEmpty?
    }
  }

  /** The stored `lastResult` / `results[name]` record. */
  datatype CheckResult = CheckResult(status: Status, message: string, data: Json, executionTime: real)

  datatype Check<P> = Check(name: string, probe: P, critical: bool, lastRun: Option<int>, lastResult: Option<CheckResult>)

  datatype Runner<P> = Runner(checks: seq<Check<P>>, results: Object<CheckResult>, isRunning: bool)

  function NewRunner<P>(): (r: Runner<P>)
    ensures r.checks == [] && r.results == [] && !r.isRunning
  {
    Runner([], [], false)
  }

  function CheckNames<P>(cs: seq<Check<P>>): (ns: seq<string>)
    ensures |ns| == |cs|
    ensures forall i :: 0 <= i < |cs| ==> ns[i] == cs[i].name
  {
    seq(|cs|, i requires 0 <= i < |cs| => cs[i].name)
  }

  /** `addCheck`: always appends, even when the name is already registered. */
  function AddCheck<P>(r: Runner<P>, name: string, probe: P, critical: bool): (r': Runner<P>)
    ensures |r'.checks| == |r.checks| + 1
    ensures r'.checks[..|r.checks|] == r.checks
    ensures r'.checks[|r.checks|] == Check(name, probe, critical, None, None)
    ensures r'.results == r.results && r'.isRunning == r.isRunning
  {
    r.(checks := r.checks + [Check(name, probe, critical, None, None)])
  }

  /** The record a probe run leaves: the probe's own fields on return, or a
      synthetic failure carrying the thrown message. A nullish rejection
      leaves none: building the failure record throws before it exists. */
  function Record(o: ProbeOutcome): (res: CheckResult)
    requires !o.ThrewNullish?
    ensures o.Threw? ==> res == CheckResult(Fail, "Check failed: " + o.error, JNull, 0.0)
    ensures o.ResolvedEmpty? ==> res == CheckResult(Fail, "Check failed: " + o.typeError, JNull, 0.0)
    ensures o.Returned? ==> res.status == o.result.status && res.message == o.result.message
                            && res.data == o.result.data && res.executionTime == o.elapsed
  {
    match o
    case Returned(pr, elapsed) => CheckResult(pr.status, pr.message, pr.data, elapsed)
    case ResolvedEmpty(e) => CheckResult(Fail, "Check failed: " + e, JNull, 0.0)
    case Threw(e) => CheckResult(Fail, "Check failed: " + e, JNull, 0.0)
  }

  /** One iteration of the loop in `runAllChecks`: run check `i`, store its
      record on the check and in `results`; `lastRun` moves only when the
      probe's promise resolved, whatever it resolved to. */
  function Step<P>(r: Runner<P>, i: nat, exec: P -> ProbeOutcome, now: int): (r': Runner<P>)
    requires i < |r.checks| && !exec(r.checks[i].probe).ThrewNullish?
    ensures |r'.checks| == |r.checks| && r'.isRunning == r.isRunning
    ensures forall j :: 0 <= j < |r.checks| ==> r'.checks[j].probe == r.checks[j].probe
  {
    var c := r.checks[i];
    var o := exec(c.probe);
    var res := Record(o);
    var c' := c.(lastResult := Some(res), lastRun := if o.Resolved() then Some(now) else c.lastRun);
    r.(checks := r.checks[i := c'], results := Set(r.results, c.name, res))
  }

  /** How far a run gets: the index of the first check whose probe rejects
      with `null` or `undefined` (the exception its catch block raises
      leaves the loop), or the number of checks when there is none. */
  function Completed<P>(cs: seq<Check<P>>, exec: P -> ProbeOutcome): (n: nat)
    ensures n <= |cs|
    ensures forall j :: 0 <= j < n ==> !exec(cs[j].probe).ThrewNullish?
    ensures n < |cs| ==> exec(cs[n].probe).ThrewNullish?
    decreases |cs|
  {
    if |cs| == 0 || exec(cs[0].probe).ThrewNullish? then 0
    else
      var n := 1 + Completed(cs[1..], exec);
      assert forall j :: 1 <= j < |cs| ==> cs[j] == cs[1..][j - 1];
      n
  }

  /** The runner's state after raising the flag and running the first `k`
      checks, which a run reaches only up to `Completed`: a run that is still
      in progress when `k < |checks|`. */
  function RunPrefix<P>(r: Runner<P>, k: nat, exec: P -> ProbeOutcome, now: int): (m: Runner<P>)
    requires k <= Completed(r.checks, exec)
    ensures |m.checks| == |r.checks| && m.isRunning
    ensures forall j :: 0 <= j < |r.checks| ==> m.checks[j].probe == r.checks[j].probe
    decreases k
  {
    if k == 0 then r.(isRunning := true)
    else Step(RunPrefix(r, k - 1, exec, now), k - 1, exec, now)
  }

  /** What `runAllChecks` settles to and the runner after it: the results
      object it resolves to or, when `rejected`, the rejection, with
      `returned` then the results object as the aborted run left it. */
  datatype RunOutput<P> = RunOutput(runner: Runner<P>, returned: Object<CheckResult>, rejected: bool)

  /** `runAllChecks`. A run that meets a nullish rejection rejects itself
      and never reaches the line that lowers the flag. */
  function RunAllChecks<P>(r: Runner<P>, exec: P -> ProbeOutcome, now: int): (out: RunOutput<P>)
    ensures r.isRunning ==> out == RunOutput(r, r.results, false)
    ensures |out.runner.checks| == |r.checks|
    ensures !r.isRunning ==> out.returned == out.runner.results
    ensures !r.isRunning ==>
              (out.rejected <==> exists j :: 0 <= j < |r.checks| && exec(r.checks[j].probe).ThrewNullish?)
    ensures !r.isRunning ==> (out.runner.isRunning <==> out.rejected)
  {
    if r.isRunning then RunOutput(r, r.results, false)
    else
      var n := Completed(r.checks, exec);
      var m := RunPrefix(r, n, exec, now);
      if n == |r.checks| then RunOutput(m.(isRunning := false), m.results, false)
      else RunOutput(m, m.results, true)
  }

  /** The index of the last of the first `k` checks called `x`. */
  function LastIndex<P>(cs: seq<Check<P>>, x: string, k: nat): (r: Option<nat>)
    requires k <= |cs|
    ensures r.Some? ==> r.value < k && cs[r.value].name == x
                        && forall j :: r.value < j < k ==> cs[j].name != x
    ensures r.None? ==> forall j :: 0 <= j < k ==> cs[j].name != x
  {
    if k == 0 then None
    else if cs[k - 1].name == x then Some(k - 1)
    else LastIndex(cs, x, k - 1)
  }

  /** While a run is in progress every check keeps its registration; only
      the bookkeeping fields change. */
  lemma {:induction false} RunPrefixKeepsRegistrations<P>(r: Runner<P>, k: nat, exec: P -> ProbeOutcome, now: int)
    requires k <= Completed(r.checks, exec)
    ensures forall j :: 0 <= j < |r.checks| ==>
              RunPrefix(r, k, exec, now).checks[j].name == r.checks[j].name
              && RunPrefix(r, k, exec, now).checks[j].probe == r.checks[j].probe
              && RunPrefix(r, k, exec, now).checks[j].critical == r.checks[j].critical
    decreases k
  {
    if k > 0 {
      RunPrefixKeepsRegistrations(r, k - 1, exec, now);
    }
  }

  /** After the first `k` checks ran, every name holds the record of the
      LAST of those checks registered under it (a later duplicate overwrites
      an earlier one), and names none of them use keep their old entry. */
  lemma {:induction false} RunPrefixResults<P>(r: Runner<P>, k: nat, exec: P -> ProbeOutcome, now: int, x: string)
    requires k <= Completed(r.checks, exec)
    ensures Get(RunPrefix(r, k, exec, now).results, x) ==
            match LastIndex(r.checks, x, k)
            case None => Get(r.results, x)
            case Some(i) => Some(Record(exec(r.checks[i].probe)))
    decreases k
  {
    if k > 0 {
      var m := RunPrefix(r, k - 1, exec, now);
      RunPrefixResults(r, k - 1, exec, now, x);
      RunPrefixKeepsRegistrations(r, k - 1, exec, now);
      var c := m.checks[k - 1];
      assert c.name == r.checks[k - 1].name && c.probe == r.checks[k - 1].probe;
      var res := Record(exec(c.probe));
      assert RunPrefix(r, k, exec, now).results == Set(m.results, c.name, res);
      if c.name == x {
        assert LastIndex(r.checks, x, k) == Some(k - 1);
        GetSetSame(m.results, x, res);
      } else {
        assert LastIndex(r.checks, x, k) == LastIndex(r.checks, x, k - 1);
        GetSetOther(m.results, c.name, res, x);
      }
    }
  }

  /** Each check's own bookkeeping after the first `k` checks ran. */
  lemma {:induction false} RunPrefixChecks<P>(r: Runner<P>, k: nat, exec: P -> ProbeOutcome, now: int, j: nat)
    requires k <= Completed(r.checks, exec) && j < |r.checks|
    ensures var c := RunPrefix(r, k, exec, now).checks[j];
            var o := exec(r.checks[j].probe);
            if j < k then
              c.lastResult == Some(Record(o))
              && c.lastRun == (if o.Resolved() then Some(now) else r.checks[j].lastRun)
            else c == r.checks[j]
    decreases k
  {
    if k > 0 {
      var m := RunPrefix(r, k - 1, exec, now);
      RunPrefixChecks(r, k - 1, exec, now, j);
      var m' := Step(m, k - 1, exec, now);
      assert RunPrefix(r, k, exec, now) == m';
      if j == k - 1 {
        assert m.checks[j] == r.checks[j];
      } else {
        assert m'.checks[j] == m.checks[j];
      }
    }
  }

  predicate DistinctNames<P>(cs: seq<Check<P>>) {
    forall i, j :: 0 <= i < j < |cs| ==> cs[i].name != cs[j].name
  }

  /** The records of the first `k` checks under their names, in
      registration order. */
  function InOrder<P>(cs: seq<Check<P>>, exec: P -> ProbeOutcome, k: nat): (o: Object<CheckResult>)
    requires k <= Completed(cs, exec)
    ensures |o| == k
  {
    seq(k, i requires 0 <= i < k => (cs[i].name, Record(exec(cs[i].probe))))
  }

  /** On a fresh registry with distinct names, every run so far has added
      one entry per check, in registration order. */
  lemma {:induction false} RunPrefixInOrder<P>(r: Runner<P>, k: nat, exec: P -> ProbeOutcome, now: int)
    requires k <= Completed(r.checks, exec) && r.results == [] && DistinctNames(r.checks)
    ensures RunPrefix(r, k, exec, now).results == InOrder(r.checks, exec, k)
    decreases k
  {
    if k > 0 {
      RunPrefixInOrder(r, k - 1, exec, now);
      RunPrefixKeepsRegistrations(r, k - 1, exec, now);
      var prev := InOrder(r.checks, exec, k - 1);
      var name := r.checks[k - 1].name;
      KeysIndex(prev, name);
      assert InOrder(r.checks, exec, k) == prev + [(name, Record(exec(r.checks[k - 1].probe)))];
    }
  }

  /** A run on an idle runner: the checks before the first nullish
      rejection ran, each record is stored under its name (the last
      duplicate winning), a probe that threw an error is a failure that did
      not stop the later ones; the aborting check and every later one are
      left as they were. Without a nullish rejection every check ran and
      the flag is down again. */
  lemma RunAllChecksEffect<P>(r: Runner<P>, exec: P -> ProbeOutcome, now: int)
    requires !r.isRunning
    ensures var out := RunAllChecks(r, exec, now);
            var n := Completed(r.checks, exec);
            forall x :: Get(out.returned, x) ==
              match LastIndex(r.checks, x, n)
              case None => Get(r.results, x)
              case Some(i) => Some(Record(exec(r.checks[i].probe)))
    ensures var out := RunAllChecks(r, exec, now);
            var n := Completed(r.checks, exec);
            forall j :: 0 <= j < |r.checks| ==>
              out.runner.checks[j].name == r.checks[j].name
              && (j < n ==>
                    out.runner.checks[j].lastResult == Some(Record(exec(r.checks[j].probe)))
                    && out.runner.checks[j].lastRun ==
                         (if exec(r.checks[j].probe).Resolved() then Some(now) else r.checks[j].lastRun))
              && (n <= j ==> out.runner.checks[j] == r.checks[j])
    ensures (forall j :: 0 <= j < |r.checks| ==> !exec(r.checks[j].probe).ThrewNullish?) ==>
              Completed(r.checks, exec) == |r.checks|
              && !RunAllChecks(r, exec, now).rejected && !RunAllChecks(r, exec, now).runner.isRunning
  {
    var n := Completed(r.checks, exec);
    forall x {
      RunPrefixResults(r, n, exec, now, x);
    }
    var m := RunPrefix(r, n, exec, now);
    RunPrefixKeepsRegistrations(r, n, exec, now);
    forall j | 0 <= j < |r.checks|
      ensures j < n ==> m.checks[j].lastResult == Some(Record(exec(r.checks[j].probe)))
      ensures j < n ==> m.checks[j].lastRun == (if exec(r.checks[j].probe).Resolved() then Some(now) else r.checks[j].lastRun)
      ensures n <= j ==> m.checks[j] == r.checks[j]
    {
      RunPrefixChecks(r, n, exec, now, j);
    }
  }

  /** A second `runAllChecks` that arrives while a run is part-way through
      executes no probe and hands back the results gathered so far; the
      first run then continues from an unchanged state. */
  lemma OverlappingRunIsRefused<P>(r: Runner<P>, k: nat, exec: P -> ProbeOutcome, now: int, exec2: P -> ProbeOutcome, now2: int)
    requires !r.isRunning && k <= Completed(r.checks, exec)
    ensures var m := RunPrefix(r, k, exec, now);
            var out := RunAllChecks(m, exec2, now2);
            out.returned == m.results && out.runner == m && !out.rejected
  {
  }

  /** A probe rejecting with `null` or `undefined` jams the runner: the run
      rejects with the flag still up, so every later `runAllChecks` runs no
      probe and returns the stale results, whatever the probes would now do. */
  lemma NullishRejectionJamsRunner<P>(r: Runner<P>, exec: P -> ProbeOutcome, now: int, i: nat, exec2: P -> ProbeOutcome, now2: int)
    requires !r.isRunning && i < |r.checks| && exec(r.checks[i].probe).ThrewNullish?
    ensures var out := RunAllChecks(r, exec, now);
            out.rejected && out.runner.isRunning
            && Completed(r.checks, exec) <= i
            && RunAllChecks(out.runner, exec2, now2) == RunOutput(out.runner, out.runner.results, false)
  {
  }

  // ---------------------------------------------------------------------
  // The catch block as evidently intended

  /** Each probe's outcome when the catch reads `error?.message`: a nullish
      rejection becomes an ordinary failure with the text "undefined". */
  function Guarded<P(!new)>(exec: P -> ProbeOutcome): (g: P -> ProbeOutcome)
    ensures forall p :: !g(p).ThrewNullish?
    ensures forall p :: exec(p).ThrewNullish? ==> g(p) == Threw("undefined")
    ensures forall p :: !exec(p).ThrewNullish? ==> g(p) == exec(p)
  {
    p => if exec(p).ThrewNullish? then Threw("undefined") else exec(p)
  }

  /** `runAllChecks` with the guarded catch block. */
  function RunAllChecksGuarded<P(!new)>(r: Runner<P>, exec: P -> ProbeOutcome, now: int): (out: RunOutput<P>)
    ensures !out.rejected && |out.runner.checks| == |r.checks|
    ensures !r.isRunning ==> !out.runner.isRunning
    ensures !r.isRunning ==> forall j :: 0 <= j < |r.checks| ==> out.runner.checks[j].lastResult.Some?
  {
    var out := RunAllChecks(r, Guarded(exec), now);
    if r.isRunning then out
    else
      RunAllChecksEffect(r, Guarded(exec), now);
      out
  }

  lemma {:induction false} CompletedAgree<P>(cs: seq<Check<P>>, e1: P -> ProbeOutcome, e2: P -> ProbeOutcome)
    requires forall j :: 0 <= j < |cs| ==> e1(cs[j].probe) == e2(cs[j].probe)
    ensures Completed(cs, e1) == Completed(cs, e2)
  {
  }

  lemma {:induction false} RunPrefixAgree<P>(r: Runner<P>, k: nat, e1: P -> ProbeOutcome, e2: P -> ProbeOutcome, now: int)
    requires forall j :: 0 <= j < |r.checks| ==> e1(r.checks[j].probe) == e2(r.checks[j].probe)
    requires k <= Completed(r.checks, e1) && k <= Completed(r.checks, e2)
    ensures RunPrefix(r, k, e1, now) == RunPrefix(r, k, e2, now)
    decreases k
  {
    if k > 0 {
      RunPrefixAgree(r, k - 1, e1, e2, now);
      assert e1(r.checks[k - 1].probe) == e2(r.checks[k - 1].probe);
    }
  }

  /** When no probe rejects with a nullish value, the guarded run and the
      run as written are the same run. */
  lemma GuardedAgreesWithoutNullish<P(!new)>(r: Runner<P>, exec: P -> ProbeOutcome, now: int)
    requires forall j :: 0 <= j < |r.checks| ==> !exec(r.checks[j].probe).ThrewNullish?
    ensures RunAllChecksGuarded(r, exec, now) == RunAllChecks(r, exec, now)
  {
    if !r.isRunning {
      var g := Guarded(exec);
      CompletedAgree(r.checks, exec, g);
      RunPrefixAgree(r, Completed(r.checks, exec), exec, g, now);
    }
  }

  // ---------------------------------------------------------------------
  // Summary

  function Values(o: Object<CheckResult>): (vs: seq<CheckResult>)
    ensures |vs| == |o|
    ensures forall i :: 0 <= i < |o| ==> vs[i] == o[i].1
  {
    seq(|o|, i requires 0 <= i < |o| => o[i].1)
  }

  /** `Object.values(results).filter(r => r.status === s).length` */
  function CountStatus(vs: seq<CheckResult>, s: Status): (n: nat)
    ensures n <= |vs|
    decreases |vs|
  {
    if |vs| == 0 then 0
    else CountStatus(vs[..|vs| - 1], s) + (if vs[|vs| - 1].status == s then 1 else 0)
  }

  /** A status is counted at all exactly when some result has it. */
  lemma {:induction false} CountStatusPositive(vs: seq<CheckResult>, s: Status)
    ensures CountStatus(vs, s) > 0 <==> exists i :: 0 <= i < |vs| && vs[i].status == s
    decreases |vs|
  {
    if |vs| > 0 {
      var init := vs[..|vs| - 1];
      CountStatusPositive(init, s);
      if exists i :: 0 <= i < |init| && init[i].status == s {
        var i :| 0 <= i < |init| && init[i].status == s;
        assert vs[i] == init[i];
      }
      if exists i :: 0 <= i < |vs| && vs[i].status == s {
        var i :| 0 <= i < |vs| && vs[i].status == s;
        if i < |init| {
          assert init[i] == vs[i];
        }
      }
    }
  }

  datatype HealthStatus = Healthy | Warning | Critical

  datatype Summary = Summary(total: nat, passed: nat, warnings: nat, failed: nat, score: int, status: HealthStatus)

  /** `Math.round(passed / total * 100)` on exact rationals: the integer
      nearest to `100 * passed / total`, halves rounded up. */
  function Score(passed: nat, total: nat): (s: int)
    ensures total == 0 ==> s == 0
    ensures total > 0 ==> 2 * total * s - total <= 200 * passed < 2 * total * s + total
    ensures total > 0 && passed <= total ==> 0 <= s <= 100
  {
    if total == 0 then 0 else (200 * passed + total) / (2 * total)
  }

  function OverallStatus(passed: nat, warnings: nat, failed: nat): (st: HealthStatus)
    ensures st == Critical <==> failed > 0
    ensures st == Warning <==> failed == 0 && warnings > 0
    ensures st == Healthy <==> failed == 0 && warnings == 0
  {
    if failed > 0 then Critical else if warnings > 0 then Warning else Healthy
  }

  /** `getHealthSummary`: `total` counts registered checks, the other counts
      the stored results. */
  function HealthSummary<P>(r: Runner<P>): (s: Summary)
    ensures s.total == |r.checks|
    ensures s.passed == CountStatus(Values(r.results), Pass)
    ensures s.warnings == CountStatus(Values(r.results), Warn)
    ensures s.failed == CountStatus(Values(r.results), Fail)
    ensures s.score == Score(s.passed, s.total) && s.status == OverallStatus(s.passed, s.warnings, s.failed)
  {
    var vs := Values(r.results);
    var passed := CountStatus(vs, Pass);
    var warnings := CountStatus(vs, Warn);
    var failed := CountStatus(vs, Fail);
    Summary(|r.checks|, passed, warnings, failed, Score(passed, |r.checks|), OverallStatus(passed, warnings, failed))
  }

  /** The three counts together never exceed the number of stored results;
      they reach it exactly when every status is a recognised one. */
  lemma {:induction false} CountsBounded(vs: seq<CheckResult>)
    ensures CountStatus(vs, Pass) + CountStatus(vs, Warn) + CountStatus(vs, Fail) <= |vs|
    ensures CountStatus(vs, Pass) + CountStatus(vs, Warn) + CountStatus(vs, Fail) == |vs|
            <==> forall i :: 0 <= i < |vs| ==> vs[i].status in {Pass, Warn, Fail}
    decreases |vs|
  {
    if |vs| > 0 {
      var init := vs[..|vs| - 1];
      CountsBounded(init);
      assert forall i :: 0 <= i < |init| ==> init[i] == vs[i];
    }
  }

  /** Before any run there are no results, so the summary is a score of 0
      with status healthy, however many checks are registered. */
  lemma SummaryBeforeAnyRun<P>(r: Runner<P>)
    requires r.results == []
    ensures HealthSummary(r) == Summary(|r.checks|, 0, 0, 0, 0, Healthy)
  {
  }

  /** When every registered check left exactly one result with a
      recognised status, the three counts add up to the total, the score is
      a percentage, and the status is critical exactly when a result
      failed. */
  lemma SummaryOfCompleteRun<P>(r: Runner<P>)
    requires |r.results| == |r.checks|
    requires forall i :: 0 <= i < |r.results| ==> r.results[i].1.status in {Pass, Warn, Fail}
    ensures var s := HealthSummary(r);
            && s.passed + s.warnings + s.failed == s.total
            && 0 <= s.score <= 100
            && (s.status == Critical <==> exists i :: 0 <= i < |r.results| && r.results[i].1.status == Fail)
  {
    var vs := Values(r.results);
    CountsBounded(vs);
    CountStatusPositive(vs, Fail);
    if exists i :: 0 <= i < |r.results| && r.results[i].1.status == Fail {
      var i :| 0 <= i < |r.results| && r.results[i].1.status == Fail;
      assert vs[i].status == Fail;
    }
  }

  /** The summary computed in one pass over the results, as a loop. */
  method SummarizeByLoop<P>(r: Runner<P>) returns (s: Summary)
    ensures s == HealthSummary(r)
  {
    var vs := Values(r.results);
    var passed, warnings, failed := 0, 0, 0;
    var i := 0;
    while i < |vs|
      invariant 0 <= i <= |vs|
      invariant passed == CountStatus(vs[..i], Pass)
      invariant warnings == CountStatus(vs[..i], Warn)
      invariant failed == CountStatus(vs[..i], Fail)
    {
      assert vs[..i + 1][..i] == vs[..i];
      if vs[i].status == Pass {
        passed := passed + 1;
      } else if vs[i].status == Warn {
        warnings := warnings + 1;
      } else if vs[i].status == Fail {
        failed := failed + 1;
      }
      i := i + 1;
    }
    assert vs[..|vs|] == vs;
    var total := |r.checks|;
    var score := if total > 0 then (200 * passed + total) / (2 * total) else 0;
    var status := if failed > 0 then Critical else if warnings > 0 then Warning else Healthy;
    s := Summary(total, passed, warnings, failed, score, status);
  }

  // ---------------------------------------------------------------------
  // The three-probe scenario: pass, warn, throw

  datatype Scripted = AlwaysPass | AlwaysWarn | AlwaysThrow | AlwaysRejectNullish

  function RunScripted(p: Scripted): ProbeOutcome {
    match p
    case AlwaysPass => Returned(ProbeResult(Pass, "ok", JNull), 1.0)
    case AlwaysWarn => Returned(ProbeResult(Warn, "slow", JNull), 1.0)
    case AlwaysThrow => Threw("boom")
    case AlwaysRejectNullish => ThrewNullish
  }

  function ScenarioRunner(): Runner<Scripted> {
    AddCheck(AddCheck(AddCheck(NewRunner(), "A", AlwaysPass, false), "B", AlwaysWarn, false), "C", AlwaysThrow, false)
  }

  lemma ScenarioResults(now: int)
    ensures RunAllChecks(ScenarioRunner(), RunScripted, now).returned ==
            [("A", Record(RunScripted(AlwaysPass))), ("B", Record(RunScripted(AlwaysWarn))), ("C", Record(RunScripted(AlwaysThrow)))]
  {
    var r := ScenarioRunner();
    assert r.checks == [Check("A", AlwaysPass, false, None, None), Check("B", AlwaysWarn, false, None, None), Check("C", AlwaysThrow, false, None, None)];
    var recA, recB, recC := Record(RunScripted(AlwaysPass)), Record(RunScripted(AlwaysWarn)), Record(RunScripted(AlwaysThrow));
    var m0 := RunPrefix(r, 0, RunScripted, now);
    assert m0.results == [];
    var m1 := RunPrefix(r, 1, RunScripted, now);
    assert m1 == Step(m0, 0, RunScripted, now);
    assert m1.results == [("A", recA)];
    var m2 := RunPrefix(r, 2, RunScripted, now);
    assert m2 == Step(m1, 1, RunScripted, now);
    assert m2.results == [("A", recA), ("B", recB)];
    var m3 := RunPrefix(r, 3, RunScripted, now);
    assert m3 == Step(m2, 2, RunScripted, now);
    assert m3.results == [("A", recA), ("B", recB), ("C", recC)];
  }

  lemma ScenarioSummary(res: Object<CheckResult>, r: Runner<Scripted>)
    requires Values(res) == [Record(RunScripted(AlwaysPass)), Record(RunScripted(AlwaysWarn)), Record(RunScripted(AlwaysThrow))]
    requires r.results == res && |r.checks| == 3
    ensures HealthSummary(r) == Summary(3, 1, 1, 1, 33, Critical)
  {
    var recA, recB, recC := Record(RunScripted(AlwaysPass)), Record(RunScripted(AlwaysWarn)), Record(RunScripted(AlwaysThrow));
    var vs := Values(res);
    assert recA.status == Pass && recB.status == Warn && recC.status == Fail;
    assert [recA, recB, recC][..2] == [recA, recB];
    assert [recA, recB][..1] == [recA];
    assert [recA][..0] == [];
    assert CountStatus([recA], Pass) == 1 && CountStatus([recA], Warn) == 0 && CountStatus([recA], Fail) == 0;
    assert CountStatus([recA, recB], Pass) == 1 && CountStatus([recA, recB], Warn) == 1 && CountStatus([recA, recB], Fail) == 0;
    assert CountStatus(vs, Pass) == 1 && CountStatus(vs, Warn) == 1 && CountStatus(vs, Fail) == 1;
    assert Score(1, 3) == 33;
  }

  lemma ScenarioLookups(res: Object<CheckResult>)
    requires res == [("A", Record(RunScripted(AlwaysPass))), ("B", Record(RunScripted(AlwaysWarn))), ("C", Record(RunScripted(AlwaysThrow)))]
    ensures Values(res) == [Record(RunScripted(AlwaysPass)), Record(RunScripted(AlwaysWarn)), Record(RunScripted(AlwaysThrow))]
    ensures Get(res, "A") == Some(Record(RunScripted(AlwaysPass)))
    ensures Get(res, "B") == Some(Record(RunScripted(AlwaysWarn)))
    ensures Get(res, "C") == Some(CheckResult(Fail, "Check failed: boom", JNull, 0.0))
  {
    assert res[1..][1..] == [("C", Record(RunScripted(AlwaysThrow)))];
    assert Get(res, "B") == Get(res[1..], "B");
    assert Get(res, "C") == Get(res[1..][1..], "C");
    assert Record(RunScripted(AlwaysThrow)) == CheckResult(Fail, "Check failed: boom", JNull, 0.0);
  }

  /** Checks A (pass), B (warn) and C (throws) give one result each and the
      summary total 3, 1 passed, 1 warning, 1 failed, score 33, critical. */
  lemma ThreeProbeScenario(now: int)
    ensures var out := RunAllChecks(ScenarioRunner(), RunScripted, now);
            && Get(out.returned, "A").Some? && Get(out.returned, "A").value.status == Pass
            && Get(out.returned, "B").Some? && Get(out.returned, "B").value.status == Warn
            && Get(out.returned, "C") == Some(CheckResult(Fail, "Check failed: boom", JNull, 0.0))
            && HealthSummary(out.runner) == Summary(3, 1, 1, 1, 33, Critical)
  {
    ScenarioResults(now);
    var r := ScenarioRunner();
    assert !r.isRunning && |r.checks| == 3;
    var out := RunAllChecks(r, RunScripted, now);
    ScenarioLookups(out.returned);
    ScenarioSummary(out.returned, out.runner);
  }

  /** Registering a name twice runs both probes, keeps one result under the
      name (the later one), and so reports more checks than results. */
  lemma DuplicateNameOverwrites(now: int)
    ensures var r := AddCheck(AddCheck(NewRunner(), "A", AlwaysThrow, false), "A", AlwaysPass, false);
            var out := RunAllChecks(r, RunScripted, now);
            && |out.returned| == 1
            && Get(out.returned, "A").value.status == Pass
            && out.runner.checks[0].lastResult == Some(CheckResult(Fail, "Check failed: boom", JNull, 0.0))
            && out.runner.checks[1].lastResult == Some(Record(RunScripted(AlwaysPass)))
            && HealthSummary(out.runner) == Summary(2, 1, 0, 0, 50, Healthy)
  {
    var r := AddCheck(AddCheck(NewRunner(), "A", AlwaysThrow, false), "A", AlwaysPass, false);
    assert RunPrefix(r, 1, RunScripted, now).results == [("A", Record(RunScripted(AlwaysThrow)))];
    assert RunPrefix(r, 2, RunScripted, now).results == [("A", Record(RunScripted(AlwaysPass)))];
    RunPrefixChecks(r, 2, RunScripted, now, 0);
    RunPrefixChecks(r, 2, RunScripted, now, 1);
    var out := RunAllChecks(r, RunScripted, now);
    assert out.runner.checks == RunPrefix(r, 2, RunScripted, now).checks;
    assert r.checks[0].probe == AlwaysThrow && r.checks[1].probe == AlwaysPass;
    assert Record(RunScripted(AlwaysThrow)) == CheckResult(Fail, "Check failed: boom", JNull, 0.0);
    assert out.returned == [("A", Record(RunScripted(AlwaysPass)))];
    var vs := Values(out.returned);
    assert vs[..1] == vs;
  }

  /** A check whose probe rejects with `undefined`, registered before a
      passing one: the run rejects, the passing check never runs, nothing is
      recorded, and the next run is refused with the same empty results. */
  lemma NullishRejectionScenario(now: int, now2: int)
    ensures var r := AddCheck(AddCheck(NewRunner(), "A", AlwaysRejectNullish, false), "B", AlwaysPass, false);
            var out := RunAllChecks(r, RunScripted, now);
            && out.rejected && out.returned == [] && out.runner.isRunning
            && out.runner.checks[1].lastResult.None? && out.runner.checks[1].lastRun.None?
            && RunAllChecks(out.runner, RunScripted, now2).returned == []
    ensures var r := AddCheck(AddCheck(NewRunner(), "A", AlwaysRejectNullish, false), "B", AlwaysPass, false);
            var out := RunAllChecksGuarded(r, RunScripted, now);
            && !out.rejected && !out.runner.isRunning
            && Get(out.returned, "A") == Some(CheckResult(Fail, "Check failed: undefined", JNull, 0.0))
            && Get(out.returned, "B").Some? && Get(out.returned, "B").value.status == Pass
  {
    var r := AddCheck(AddCheck(NewRunner(), "A", AlwaysRejectNullish, false), "B", AlwaysPass, false);
    assert r.checks[0].probe == AlwaysRejectNullish && r.checks[1].probe == AlwaysPass;
    assert Completed(r.checks, RunScripted) == 0;
    var g := Guarded(RunScripted);
    assert Completed(r.checks, g) == 2;
    assert g(AlwaysRejectNullish) == Threw("undefined");
    assert Record(Threw("undefined")) == CheckResult(Fail, "Check failed: undefined", JNull, 0.0);
    var m1 := RunPrefix(r, 1, g, now);
    assert m1 == Step(RunPrefix(r, 0, g, now), 0, g, now);
    assert m1.results == [("A", CheckResult(Fail, "Check failed: undefined", JNull, 0.0))];
    var m2 := RunPrefix(r, 2, g, now);
    assert m2.results == [("A", CheckResult(Fail, "Check failed: undefined", JNull, 0.0)), ("B", Record(RunScripted(AlwaysPass)))];
  }
}
