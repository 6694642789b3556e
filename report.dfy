/**
  The assessment report of `EST.generate_report`: `_create_report` folds the
  test log into overall, per-test-type and per-scenario success counters,
  `_generate_recommendations` picks four recommendations by success-rate band
  and adds four fixed ones, and `_print_report_summary` prints a risk level
  banded on the rounded success rate.

  Success rates are compared as integers: `s / t * 100 > 80` is
  `100 * s > 80 * t`, and the rate stored in the report, `round(s / t * 100, 2)`,
  is kept as a whole number of hundredths of a percent.
 */
module Report {
  import opened Wrappers
  import opened Text
  import opened Records
  import opened Tally

  const ToolVersion: string := "2.0.1"
  const ReportType: string := "EST Security Assessment"

  function TestTypeOf(e: TestResult): string { e.testType }
  function ScenarioOf(e: TestResult): string { e.scenario }
  function Always(e: TestResult): bool { true }

  /** One `{'total': ..., 'success': ...}` counter of a grouping, with its key. */
  datatype Bucket = Bucket(key: string, total: nat, success: nat)

  datatype Report = Report(
    generatedAt: string,
    toolVersion: string,
    reportType: string,
    totalTests: nat,
    successfulTests: nat,
    failedTests: int,
    successRate: nat,          // hundredths of a percent
    firstTest: Option<string>,
    lastTest: Option<string>,
    byTestType: seq<Bucket>,
    byScenario: seq<Bucket>,
    detailedLogs: seq<TestResult>,
    recommendations: seq<string>)

  datatype RiskLevel = Medium | High | Critical

  function Rank(level: RiskLevel): nat {
    match level
    case Medium => 0
    case High => 1
    case Critical => 2
  }

  // ---------------------------------------------------------------------
  // The per-key counters

  /** The counters for the keys `ks`, counted over `entries`. */
  function BucketsFor(ks: seq<string>, entries: seq<TestResult>, key: TestResult -> string): (b: seq<Bucket>)
    ensures |b| == |ks|
  {
    seq(|ks|, j requires 0 <= j < |ks| =>
      Bucket(ks[j], CountKey(entries, key, ks[j], Always), CountKey(entries, key, ks[j], Succeeded)))
  }

  /** The dict `_create_report` builds for the grouping `key`: one counter
      per key, keys in order of first appearance. */
  function Buckets(entries: seq<TestResult>, key: TestResult -> string): seq<Bucket> {
    BucketsFor(Keys(entries, key), entries, key)
  }

  function KeysOf(b: seq<Bucket>): (ks: seq<string>)
    ensures |ks| == |b|
    ensures forall j :: 0 <= j < |b| ==> ks[j] == b[j].key
  {
    seq(|b|, j requires 0 <= j < |b| => b[j].key)
  }

  function SumTotals(b: seq<Bucket>): nat
    decreases |b|
  {
    if b == [] then 0 else SumTotals(b[..|b| - 1]) + b[|b| - 1].total
  }

  function SumSuccesses(b: seq<Bucket>): nat
    decreases |b|
  {
    if b == [] then 0 else SumSuccesses(b[..|b| - 1]) + b[|b| - 1].success
  }

  /** Every entry is counted by `Always`. */
  lemma {:induction false} CountAlways(xs: seq<TestResult>)
    ensures CountWhere(xs, Always) == |xs|
    decreases |xs|
  {
    if xs != [] {
      CountAlways(xs[..|xs| - 1]);
    }
  }

  /** A key's successes are among its entries. */
  lemma {:induction false} SuccessesWithinTotal(xs: seq<TestResult>, key: TestResult -> string, k: string)
    ensures CountKey(xs, key, k, Succeeded) <= CountKey(xs, key, k, Always)
    decreases |xs|
  {
    if xs != [] {
      SuccessesWithinTotal(xs[..|xs| - 1], key, k);
    }
  }

  lemma {:induction false} SumsOfBucketsFor(ks: seq<string>, entries: seq<TestResult>, key: TestResult -> string)
    ensures SumTotals(BucketsFor(ks, entries, key)) == SumCounts(ks, entries, key, Always)
    ensures SumSuccesses(BucketsFor(ks, entries, key)) == SumCounts(ks, entries, key, Succeeded)
    decreases |ks|
  {
    if ks != [] {
      var b := BucketsFor(ks, entries, key);
      var init := ks[..|ks| - 1];
      assert b[..|b| - 1] == BucketsFor(init, entries, key);
      SumsOfBucketsFor(init, entries, key);
    }
  }

  /** What `_create_report` promises of one grouping's counters. */
  predicate Conserves(b: seq<Bucket>, total: nat, successful: nat) {
    && SumTotals(b) == total
    && SumSuccesses(b) == successful
    && forall j :: 0 <= j < |b| ==> b[j].success <= b[j].total
  }

  /** The counters of one grouping: distinct keys covering every entry,
      successes never above totals, and totals (successes) adding up to the
      number of entries (successful entries). */
  lemma BucketsConserve(entries: seq<TestResult>, key: TestResult -> string)
    ensures Distinct(KeysOf(Buckets(entries, key)))
    ensures forall i :: 0 <= i < |entries| ==> key(entries[i]) in KeysOf(Buckets(entries, key))
    ensures Conserves(Buckets(entries, key), |entries|, CountWhere(entries, Succeeded))
  {
    var ks := Keys(entries, key);
    assert KeysOf(Buckets(entries, key)) == ks;
    forall j | 0 <= j < |ks| ensures Buckets(entries, key)[j].success <= Buckets(entries, key)[j].total {
      SuccessesWithinTotal(entries, key, ks[j]);
    }
    SumsOfBucketsFor(ks, entries, key);
    SumOfCounts(entries, key, Always);
    SumOfCounts(entries, key, Succeeded);
    CountAlways(entries);
  }

  lemma KeysOfBuckets(xs: seq<TestResult>, key: TestResult -> string)
    ensures KeysOf(Buckets(xs, key)) == Keys(xs, key)
  {
  }

  /** One more log entry with a key not seen before gets a fresh counter at
      the end; the other counters are unchanged. */
  lemma BucketsSnocNew(xs: seq<TestResult>, x: TestResult, key: TestResult -> string)
    requires key(x) !in Keys(xs, key)
    ensures |Buckets(xs + [x], key)| == |Buckets(xs, key)| + 1
    ensures forall j :: 0 <= j < |Buckets(xs, key)| ==> Buckets(xs + [x], key)[j] == Buckets(xs, key)[j]
    ensures Buckets(xs + [x], key)[|Buckets(xs, key)|] == Bucket(key(x), 1, if x.success then 1 else 0)
  {
    var ys := xs + [x];
    assert ys[..|ys| - 1] == xs;
    var ks := Keys(xs, key);
    assert Keys(ys, key) == ks + [key(x)];
    var b, b' := Buckets(xs, key), Buckets(ys, key);
    forall j | 0 <= j < |ks| ensures b'[j] == b[j] {
      CountKeySnoc(xs, x, key, ks[j], Always);
      CountKeySnoc(xs, x, key, ks[j], Succeeded);
    }
    assert forall i :: 0 <= i < |xs| ==> key(xs[i]) != key(x);
    CountKeyAbsent(xs, key, key(x), Always);
    CountKeyAbsent(xs, key, key(x), Succeeded);
    CountKeySnoc(xs, x, key, key(x), Always);
    CountKeySnoc(xs, x, key, key(x), Succeeded);
  }

  /** One more log entry with a known key increments that key's counter in
      place; the other counters are unchanged. */
  lemma BucketsSnocKnown(xs: seq<TestResult>, x: TestResult, key: TestResult -> string, at: nat)
    requires at < |Keys(xs, key)| && Keys(xs, key)[at] == key(x)
    ensures |Buckets(xs + [x], key)| == |Buckets(xs, key)| && at < |Buckets(xs, key)|
    ensures forall j :: 0 <= j < |Buckets(xs, key)| && j != at ==> Buckets(xs + [x], key)[j] == Buckets(xs, key)[j]
    ensures Buckets(xs + [x], key)[at]
         == Bucket(key(x), Buckets(xs, key)[at].total + 1, Buckets(xs, key)[at].success + if x.success then 1 else 0)
  {
    var ys := xs + [x];
    assert ys[..|ys| - 1] == xs;
    var ks := Keys(xs, key);
    assert Keys(ys, key) == ks;
    var b, b' := Buckets(xs, key), Buckets(ys, key);
    forall j | 0 <= j < |ks| && j != at ensures b'[j] == b[j] {
      CountKeySnoc(xs, x, key, ks[j], Always);
      CountKeySnoc(xs, x, key, ks[j], Succeeded);
    }
    CountKeySnoc(xs, x, key, key(x), Always);
    CountKeySnoc(xs, x, key, key(x), Succeeded);
  }

  /** The loop `_create_report` runs over the log for one grouping (it runs
      it twice, for `test_type` and for `scenario`). */
  method TallyBy(entries: seq<TestResult>, key: TestResult -> string) returns (b: seq<Bucket>)
    ensures b == Buckets(entries, key)
  {
    b := [];
    for i := 0 to |entries|
      invariant b == Buckets(entries[..i], key)
    {
      var entry := entries[i];
      var k := key(entry);
      ghost var xs := entries[..i];
      assert entries[..i + 1] == xs + [entry];
      KeysOfBuckets(xs, key);
      var at := IndexOf(KeysOf(b), k);
      if at == |b| {
        BucketsSnocNew(xs, entry, key);
        b := b + [Bucket(k, 0, 0)];
      } else {
        BucketsSnocKnown(xs, entry, key, at);
      }
      b := b[at := Bucket(k, b[at].total + 1, b[at].success + (if entry.success then 1 else 0))];
    }
    assert entries[..|entries|] == entries;
  }

  // ---------------------------------------------------------------------
  // Test period

  /** `min(timestamps)`: a timestamp of the list that no other precedes. */
  function Earliest(ts: seq<string>): (r: string)
    requires ts != []
    ensures r in ts
    ensures forall t :: t in ts ==> LexLe(r, t)
    decreases |ts|
  {
    if |ts| == 1 then LexLeReflexive(ts[0]); ts[0]
    else
      var rest := Earliest(ts[1..]);
      LexLeTotal(ts[0], rest);
      if LexLe(rest, ts[0]) && rest != ts[0] then
        (forall t | t in ts[1..] ensures LexLe(rest, t) {}
         assert forall t :: t in ts ==> t == ts[0] || t in ts[1..];
         rest)
      else
        (LexLeReflexive(ts[0]);
         forall t | t in ts[1..] ensures LexLe(ts[0], t) {
           LexLeTransitive(ts[0], rest, t);
         }
         assert forall t :: t in ts ==> t == ts[0] || t in ts[1..];
         ts[0])
  }

  /** `max(timestamps)`: a timestamp of the list that precedes no other. */
  function Latest(ts: seq<string>): (r: string)
    requires ts != []
    ensures r in ts
    ensures forall t :: t in ts ==> LexLe(t, r)
    decreases |ts|
  {
    if |ts| == 1 then LexLeReflexive(ts[0]); ts[0]
    else
      var rest := Latest(ts[1..]);
      LexLeTotal(ts[0], rest);
      if LexLe(ts[0], rest) then
        (assert forall t :: t in ts ==> t == ts[0] || t in ts[1..];
         rest)
      else
        (LexLeReflexive(ts[0]);
         forall t | t in ts[1..] ensures LexLe(t, ts[0]) {
           LexLeTransitive(t, rest, ts[0]);
         }
         assert forall t :: t in ts ==> t == ts[0] || t in ts[1..];
         ts[0])
  }

  /** `min` and `max` are values, not choices: any timestamp of the list
      that precedes every other is `Earliest`, and any that follows every
      other is `Latest`. */
  lemma PeriodEndsUnique(ts: seq<string>, lo: string, hi: string)
    requires ts != []
    requires lo in ts && forall t :: t in ts ==> LexLe(lo, t)
    requires hi in ts && forall t :: t in ts ==> LexLe(t, hi)
    ensures lo == Earliest(ts) && hi == Latest(ts)
  {
    LexLeAntisymmetric(lo, Earliest(ts));
    LexLeAntisymmetric(hi, Latest(ts));
  }

  function Timestamps(entries: seq<TestResult>): (ts: seq<string>)
    ensures |ts| == |entries|
    ensures forall i :: 0 <= i < |entries| ==> ts[i] == entries[i].timestamp
  {
    seq(|entries|, i requires 0 <= i < |entries| => entries[i].timestamp)
  }

  // ---------------------------------------------------------------------
  // Success rate and recommendations

  /** The band `_generate_recommendations` chooses on the exact rate
      `s / t * 100` (0 for an empty log). */
  function RecommendationBand(successes: nat, total: nat): RiskLevel {
    if total > 0 && 100 * successes > 80 * total then Critical
    else if total > 0 && 100 * successes > 50 * total then High
    else Medium
  }

  /** `round(s / t * 100, 2)` in hundredths of a percent, halves rounded up;
      0 for an empty log. */
  function RoundedRate(successes: nat, total: nat): nat {
    if total == 0 then 0 else (20000 * successes + total) / (2 * total)
  }

  /** The band `_print_report_summary` prints, on the rounded rate. */
  function SummaryBand(rate: nat): RiskLevel {
    if rate > 8000 then Critical
    else if rate > 5000 then High
    else Medium
  }

  const CriticalItems: seq<string> := [
    "🔴 CRITICAL: High email spoofing success rate detected",
    "Implement SPF, DKIM, and DMARC email authentication",
    "Configure email security gateways with spoofing detection",
    "Conduct immediate security awareness training"]

  const HighItems: seq<string> := [
    "🟠 HIGH: Moderate spoofing vulnerabilities identified",
    "Review and strengthen email authentication policies",
    "Implement additional email security controls",
    "Regular security awareness training recommended"]

  const MediumItems: seq<string> := [
    "🟡 MEDIUM: Some spoofing attempts successful",
    "Continue monitoring email security controls",
    "Periodic security awareness refresher training",
    "Regular testing of email authentication mechanisms"]

  const CommonItems: seq<string> := [
    "📚 Provide targeted training on identifying spoofed emails",
    "🔍 Implement email header analysis training",
    "⚡ Establish incident response procedures for email attacks",
    "📊 Regular penetration testing of email security controls"]

  function BandItems(level: RiskLevel): seq<string> {
    match level
    case Critical => CriticalItems
    case High => HighItems
    case Medium => MediumItems
  }

  /** `_generate_recommendations(log_entries)`. */
  function Recommendations(entries: seq<TestResult>): seq<string> {
    BandItems(RecommendationBand(CountWhere(entries, Succeeded), |entries|)) + CommonItems
  }

  /** Eight recommendations always: the band's four, chosen on the exact
      success rate with thresholds 80 and 50 (an empty log has rate 0 and
      gets the Medium four), then the same four fixed ones. */
  lemma RecommendationsShape(entries: seq<TestResult>)
    ensures var r := Recommendations(entries);
            var s, t := CountWhere(entries, Succeeded), |entries|;
            && |r| == 8
            && r[4..] == CommonItems
            && (r[..4] == CriticalItems <==> t > 0 && 100 * s > 80 * t)
            && (r[..4] == HighItems <==> t > 0 && 50 * t < 100 * s <= 80 * t)
            && (r[..4] == MediumItems <==> t == 0 || 100 * s <= 50 * t)
  {
    var r := Recommendations(entries);
    var level := RecommendationBand(CountWhere(entries, Succeeded), |entries|);
    assert r[..4] == BandItems(level) && r[4..] == CommonItems;
    assert CriticalItems[0] != HighItems[0] && CriticalItems[0] != MediumItems[0]
      && HighItems[0] != MediumItems[0];
  }

  lemma MulMonotone(c: nat, a: int, b: int)
    requires a <= b
    ensures c * a <= c * b
  {
    assert c * b - c * a == c * (b - a);
  }

  /** The hundredths are the rounded value of `10000 * s / t`: within half a
      hundredth of it. */
  lemma RoundedRateBounds(successes: nat, total: nat)
    requires total > 0
    ensures 2 * total * RoundedRate(successes, total) <= 20000 * successes + total
    ensures 20000 * successes + total < 2 * total * (RoundedRate(successes, total) + 1)
  {
    var n, d := 20000 * successes + total, 2 * total;
    var q := n / d;
    assert n == d * q + n % d;
    assert d * (q + 1) == d * q + d;
  }

  /** The rounded rate reaches `k` hundredths exactly when
      `10000 * s / t + 1/2 >= k`. */
  lemma RoundedRateAtLeast(successes: nat, total: nat, k: nat)
    requires total > 0
    ensures RoundedRate(successes, total) >= k <==> 20000 * successes + total >= 2 * total * k
  {
    var q := RoundedRate(successes, total);
    RoundedRateBounds(successes, total);
    if q >= k {
      MulMonotone(2 * total, k, q);
    } else {
      MulMonotone(2 * total, q + 1, k);
    }
  }

  /** Rounding never raises the printed risk level above the band the
      recommendations were chosen on. */
  lemma SummaryNeverAboveRecommendations(successes: nat, total: nat)
    ensures Rank(SummaryBand(RoundedRate(successes, total)))
         <= Rank(RecommendationBand(successes, total))
  {
    if total > 0 {
      RoundedRateAtLeast(successes, total, 8001);
      RoundedRateAtLeast(successes, total, 5001);
    }
  }

  /** The printed risk level and the recommendation band disagree exactly
      when the rate lies strictly between a threshold and the threshold plus
      half a hundredth (80% < rate < 80.005%, or 50% < rate < 50.005%). */
  lemma BandsDisagreeExactly(successes: nat, total: nat)
    ensures SummaryBand(RoundedRate(successes, total)) != RecommendationBand(successes, total)
        <==> total > 0
             && (16000 * total < 20000 * successes < 16001 * total
                 || 10000 * total < 20000 * successes < 10001 * total)
  {
    if total > 0 {
      RoundedRateAtLeast(successes, total, 8001);
      RoundedRateAtLeast(successes, total, 5001);
    }
  }

  /** 20001 successes in 25000 tests (80.004%): the summary prints 80.0 and
      the HIGH risk level while the recommendations are the CRITICAL ones. */
  lemma BandsDisagreeExample()
    ensures RoundedRate(20001, 25000) == 8000
    ensures SummaryBand(RoundedRate(20001, 25000)) == High
    ensures RecommendationBand(20001, 25000) == Critical
  {
  }

  // ---------------------------------------------------------------------
  // The report

  /** The `test_period` of the report: the earliest and the latest
      timestamp of the log, or nothing for an empty log. */
  function TestPeriod(entries: seq<TestResult>): (p: (Option<string>, Option<string>))
    ensures p.0.None? <==> entries == []
    ensures p.1.None? <==> entries == []
  {
    var ts := Timestamps(entries);
    if ts == [] then (None, None) else (Some(Earliest(ts)), Some(Latest(ts)))
  }

  /** The period's ends are timestamps of the log, and every timestamp of
      the log lies between them. */
  lemma TestPeriodBounds(entries: seq<TestResult>)
    requires entries != []
    ensures var (first, last) := TestPeriod(entries);
            && first.Some? && last.Some?
            && (exists i :: 0 <= i < |entries| && entries[i].timestamp == first.value)
            && (exists i :: 0 <= i < |entries| && entries[i].timestamp == last.value)
            && forall i :: 0 <= i < |entries| ==>
                 LexLe(first.value, entries[i].timestamp) && LexLe(entries[i].timestamp, last.value)
  {
    var ts := Timestamps(entries);
    assert forall i :: 0 <= i < |entries| ==> entries[i].timestamp in ts;
  }

  /** `_create_report(log_entries)`, with the clock reading `now` for
      `generated_at`. */
  method CreateReport(entries: seq<TestResult>, now: string) returns (r: Report)
    ensures r.totalTests == |entries|
    ensures r.successfulTests == CountWhere(entries, Succeeded) <= r.totalTests
    ensures r.failedTests == r.totalTests - r.successfulTests && r.failedTests >= 0
    ensures r.successRate == RoundedRate(r.successfulTests, r.totalTests)
    ensures r.byTestType == Buckets(entries, TestTypeOf)
    ensures r.byScenario == Buckets(entries, ScenarioOf)
    ensures (r.firstTest, r.lastTest) == TestPeriod(entries)
    ensures r.detailedLogs == entries
    ensures r.recommendations == Recommendations(entries)
    ensures r.generatedAt == now && r.toolVersion == ToolVersion && r.reportType == ReportType
  {
    var total := |entries|;
    var successful := CountWhere(entries, Succeeded);
    var testTypes := TallyBy(entries, TestTypeOf);
    var scenarios := TallyBy(entries, ScenarioOf);
    var period := TestPeriod(entries);
    r := Report(now, ToolVersion, ReportType, total, successful, total - successful,
                RoundedRate(successful, total), period.0, period.1, testTypes, scenarios,
                entries, Recommendations(entries));
  }
}
