/**
 The health endpoint (internal/handlers/health.go): one goroutine per probe, each writing
 its own slot, joined before the report is built.
 */
module Health {
  datatype Probe = Answers(latency: nat) | Fails(latency: nat) | Panics(latency: nat)

  datatype Check = Check(name: string, probe: Probe)

  datatype CheckResult = CheckResult(ok: bool, latency: nat)

  datatype Report = Report(status: nat, ok: bool, checks: map<string, CheckResult>)

  const STATUS_OK := 200
  const STATUS_UNAVAILABLE := 503

  // A panic counts as a failure of the one dependency.
  function RunProbe(p: Probe): CheckResult {
    CheckResult(p.Answers?, p.latency)
  }

  // Of the first n checks, the one at k is the last with its name: the one that is shown.
  predicate ShownOf(checks: seq<Check>, k: nat, n: nat)
    requires k < n <= |checks|
  {
    forall j | k < j < n :: checks[j].name != checks[k].name
  }

  predicate Shown(checks: seq<Check>, k: nat)
    requires k < |checks|
  {
    ShownOf(checks, k, |checks|)
  }

  // The map shows the first n checks.
  ghost predicate Shows(shown: map<string, CheckResult>, checks: seq<Check>, n: nat)
    requires n <= |checks|
  {
    && (forall k | 0 <= k < n :: checks[k].name in shown)
    && (forall k | 0 <= k < n && ShownOf(checks, k, n) :: shown[checks[k].name] == RunProbe(checks[k].probe))
    && (forall name | name in shown :: exists k :: 0 <= k < n && checks[k].name == name)
  }

  predicate AllAnswer(checks: seq<Check>, n: nat)
    requires n <= |checks|
  {
    forall k | 0 <= k < n :: checks[k].probe.Answers?
  }

  ghost predicate Describes(report: Report, checks: seq<Check>) {
    && report.ok == AllAnswer(checks, |checks|)
    && report.status == (if report.ok then 200 else 503)
    && Shows(report.checks, checks, |checks|)
  }

  // Starts every probe, then lets them finish in whatever order they do.
  method RunProbes(checks: seq<Check>) returns (results: array<CheckResult>)
    ensures fresh(results) && results.Length == |checks|
    ensures forall k | 0 <= k < |checks| :: results[k] == RunProbe(checks[k].probe)
  {
    results := new CheckResult[|checks|];
    var running: set<nat> := {};
    for i := 0 to |checks|
      invariant forall k: nat :: k in running <==> k < i
    {
      running := running + {i};
    }
    while running != {}
      invariant forall k | k in running :: k < |checks|
      invariant forall k | 0 <= k < |checks| && k !in running :: results[k] == RunProbe(checks[k].probe)
      decreases running
    {
      var i :| i in running;
      results[i] := RunProbe(checks[i].probe);
      running := running - {i};
    }
  }

  // The map after the first n checks have been entered, later ones over earlier.
  function ChecksMap(checks: seq<Check>, n: nat): map<string, CheckResult>
    requires n <= |checks|
  {
    if n == 0 then map[] else ChecksMap(checks, n - 1)[checks[n - 1].name := RunProbe(checks[n - 1].probe)]
  }

  lemma {:induction false} ChecksMapNames(checks: seq<Check>, n: nat, name: string)
    requires n <= |checks|
    ensures name in ChecksMap(checks, n) <==> exists k :: 0 <= k < n && checks[k].name == name
  {
    if n > 0 {
      ChecksMapNames(checks, n - 1, name);
      if name == checks[n - 1].name {
        assert name in ChecksMap(checks, n);
      }
    }
  }

  lemma {:induction false} ChecksMapShows(checks: seq<Check>, n: nat, k: nat)
    requires k < n <= |checks| && ShownOf(checks, k, n)
    ensures checks[k].name in ChecksMap(checks, n)
    ensures ChecksMap(checks, n)[checks[k].name] == RunProbe(checks[k].probe)
  {
    if k < n - 1 {
      assert checks[n - 1].name != checks[k].name;
      ChecksMapShows(checks, n - 1, k);
    }
  }

  lemma ChecksMapIsShown(checks: seq<Check>)
    ensures Shows(ChecksMap(checks, |checks|), checks, |checks|)
  {
    var n := |checks|;
    forall name ensures name in ChecksMap(checks, n) <==> exists k :: 0 <= k < n && checks[k].name == name {
      ChecksMapNames(checks, n, name);
    }
    forall k | 0 <= k < n && ShownOf(checks, k, n)
      ensures checks[k].name in ChecksMap(checks, n)
      ensures ChecksMap(checks, n)[checks[k].name] == RunProbe(checks[k].probe)
    {
      ChecksMapShows(checks, n, k);
    }
    forall k | 0 <= k < n ensures checks[k].name in ChecksMap(checks, n) {
      var name := checks[k].name;
      assert name in ChecksMap(checks, n) <==> exists k :: 0 <= k < n && checks[k].name == name;
    }
  }

  /** Whatever order the probes finish in, the report is the one their answers determine. */
  method ServeHTTP(checks: seq<Check>) returns (report: Report)
    ensures Describes(report, checks)
  {
    var results := RunProbes(checks);
    var shown: map<string, CheckResult> := map[];
    var ok := true;
    for i := 0 to |checks|
      invariant ok == AllAnswer(checks, i)
      invariant shown == ChecksMap(checks, i)
    {
      shown := shown[checks[i].name := results[i]];
      ok := ok && results[i].ok;
    }
    ChecksMapIsShown(checks);
    report := Report(if ok then STATUS_OK else STATUS_UNAVAILABLE, ok, shown);
  }

  lemma {:induction false} LastOfName(checks: seq<Check>, k: nat) returns (j: nat)
    requires k < |checks|
    ensures k <= j < |checks| && checks[j].name == checks[k].name && Shown(checks, j)
    decreases |checks| - k
  {
    if Shown(checks, k) {
      j := k;
    } else {
      var next :| k < next < |checks| && checks[next].name == checks[k].name;
      j := LastOfName(checks, next);
    }
  }

  /** The report is determined: no two differ. */
  lemma OneReport(checks: seq<Check>, r: Report, r': Report)
    requires Describes(r, checks) && Describes(r', checks)
    ensures r == r'
  {
    forall name | name in r.checks || name in r'.checks
      ensures name in r.checks && name in r'.checks && r.checks[name] == r'.checks[name]
    {
      var k :| 0 <= k < |checks| && checks[k].name == name;
      var j := LastOfName(checks, k);
    }
    assert r.checks == r'.checks;
  }

  /** A failure that no line of the report shows is one whose name a later check reuses. */
  lemma HiddenFailureIff(checks: seq<Check>, r: Report)
    requires Describes(r, checks)
    ensures (!r.ok && forall name | name in r.checks :: r.checks[name].ok) <==>
      && (exists k :: 0 <= k < |checks| && !checks[k].probe.Answers?)
      && (forall k | 0 <= k < |checks| && !checks[k].probe.Answers? :: !Shown(checks, k))
  {
    forall name | name in r.checks && !r.checks[name].ok
      ensures exists k :: 0 <= k < |checks| && !checks[k].probe.Answers? && Shown(checks, k)
    {
      var k :| 0 <= k < |checks| && checks[k].name == name;
      var j := LastOfName(checks, k);
    }
  }

  /** Under distinct names, as the server registers them, every failure is shown. */
  lemma DistinctNamesShowFailures(checks: seq<Check>, r: Report)
    requires Describes(r, checks) && forall i, j | 0 <= i < j < |checks| :: checks[i].name != checks[j].name
    ensures r.ok <==> forall name | name in r.checks :: r.checks[name].ok
    ensures forall k | 0 <= k < |checks| :: r.checks[checks[k].name] == RunProbe(checks[k].probe)
  {
    HiddenFailureIff(checks, r);
    forall k | 0 <= k < |checks| ensures Shown(checks, k) && checks[k].name in r.checks {
    }
  }

  // Two checks of one name, the first failing: degraded, and the one line says ok.
  lemma RepeatedNameHidesFailure(r: Report)
    requires Describes(r, [Check("store", Fails(3)), Check("store", Answers(5))])
    ensures !r.ok && r.status == STATUS_UNAVAILABLE && r.checks == map["store" := CheckResult(true, 5)]
  {
    var checks := [Check("store", Fails(3)), Check("store", Answers(5))];
    assert !checks[0].probe.Answers?;
    assert Shown(checks, 1) && checks[1].name == "store";
    forall name | name in r.checks ensures name == "store" {
      var k :| 0 <= k < |checks| && checks[k].name == name;
    }
  }
}
