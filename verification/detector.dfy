/** The drift detector: an append-only sample buffer, the automatic trigger
    rule, per-feature PSI against a reference distribution, and the drift
    check that classifies features and extends the history. State changes
    are functions from one detector value to the next; the clock and the
    logarithm are parameters. */
module Detector {
  import opened History
  import opened Psi

  /** A drift check needs at least this many samples. */
  const MinSamples: nat := 100
  /** After `MinSamples`, an automatic check runs every this many samples. */
  const CheckEvery: nat := 50
  /** The constructor's default PSI threshold. */
  const DefaultThreshold: real := 0.2

  /** One feature's reference: bin counts and the bin edges they were taken over. */
  datatype Reference = Reference(histogram: seq<nat>, bins: seq<real>)

  /** One recorded sample: when it arrived and the feature values it carried. */
  datatype Sample = Sample(timestamp: Timestamp, values: map<string, real>)

  datatype DriftDetector = DriftDetector(
    reference: map<string, Reference>,
    threshold: real,
    samples: seq<Sample>,
    history: DriftHistory)

  datatype FeatureResult = FeatureResult(psi: Score, drifting: bool)

  datatype Status = Normal | DriftDetected

  datatype CheckResult =
    | InsufficientData(count: nat)
    | Completed(status: Status, features: map<string, FeatureResult>, sampleCount: nat, timestamp: Timestamp)

  datatype CheckStep = CheckStep(detector: DriftDetector, result: CheckResult)

  /** The outcome of `add_sample`: the new detector, the success flag, the
      monitored features the sample lacked (only warned about), and the
      automatic check's result when one ran. */
  datatype AddOutcome = AddOutcome(detector: DriftDetector, ok: bool, missing: set<string>, check: Option<CheckResult>)

  /** A reference entry with at least two edges that never decrease and one
      count per bin. The model computes a PSI only for these entries. numpy
      raises on decreasing edges, and on counts that cannot be paired with
      the bins. It broadcasts some other shapes instead of raising. */
  predicate WellFormed(r: Reference)
  {
    |r.bins| >= 2 && |r.histogram| == |r.bins| - 1 && EdgesMonotone(r.bins)
  }

  /** A fresh detector: no samples, the stored history when the file parsed,
      otherwise an empty history with one empty series per reference feature. */
  function NewDetector(reference: map<string, Reference>, threshold: real, stored: HistoryFile): (d: DriftDetector)
    ensures |d.samples| == 0 && d.reference == reference && d.threshold == threshold
    ensures stored.Parsed? ==> d.history == stored.history
    ensures !stored.Parsed? ==> |d.history.timestamps| == 0 && d.history.driftScores.Keys == reference.Keys
    ensures !stored.Parsed? ==> forall f :: f in d.history.driftScores ==> d.history.driftScores[f] == []
  {
    var history := if stored.Parsed? then stored.history else EmptyHistory(reference.Keys);
    DriftDetector(reference, threshold, [], history)
  }

  /** The automatic trigger: the buffer length has reached 100 and is a
      multiple of 50. */
  predicate ShouldCheck(n: nat)
  {
    n >= MinSamples && n % CheckEvery == 0
  }

  /** Automatic checks fire exactly at 100, 150, 200, ... */
  lemma ShouldCheckSchedule(n: nat)
    ensures ShouldCheck(n) <==> exists k: nat :: n == 100 + 50 * k
  {
    if ShouldCheck(n) {
      var k: nat := (n - 100) / 50;
      assert n == 100 + 50 * k;
    }
  }

  /** Consecutive automatic checks are exactly 50 samples apart. */
  lemma ChecksFiftyApart(n: nat)
    requires ShouldCheck(n)
    ensures ShouldCheck(n + 50)
    ensures forall j: nat :: n < j < n + 50 ==> !ShouldCheck(j)
  {
  }

  /** The values of `feature` in arrival order, from the samples that carry it. */
  function Values(samples: seq<Sample>, feature: string): (vs: seq<real>)
    ensures |vs| <= |samples|
    ensures (forall i :: 0 <= i < |samples| ==> feature in samples[i].values) ==> |vs| == |samples|
    ensures (forall i :: 0 <= i < |samples| ==> feature !in samples[i].values) ==> vs == []
  {
    if |samples| == 0 then []
    else (if feature in samples[0].values then [samples[0].values[feature]] else []) + Values(samples[1..], feature)
  }

  /** A new sample contributes its value when it carries the feature and
      nothing otherwise; earlier contributions stay in place. */
  lemma {:induction false} ValuesSnoc(samples: seq<Sample>, s: Sample, feature: string)
    ensures Values(samples + [s], feature)
         == Values(samples, feature) + (if feature in s.values then [s.values[feature]] else [])
  {
    if |samples| > 0 {
      assert (samples + [s])[1..] == samples[1..] + [s];
      ValuesSnoc(samples[1..], s, feature);
    } else {
      assert (samples + [s])[1..] == [];
    }
  }

  /** The histogram of `feature`'s observed values over the reference edges. */
  function CurrentHistogram(samples: seq<Sample>, feature: string, ref: Reference): (h: seq<nat>)
    requires WellFormed(ref)
    ensures |h| == |ref.histogram|
    ensures Total(h) == CountInRange(Values(samples, feature), ref.bins)
  {
    RebucketTotal(Values(samples, feature), ref.bins);
    Rebucket(Values(samples, feature), ref.bins)
  }

  /** `calculate_psi`: None below 100 samples or when the reference entry is
      absent or malformed (numpy raises); otherwise the PSI of the observed
      histogram against the reference one, which is NaN exactly when no
      observed value lies within the edges or the reference is all zero. */
  function CalculatePsi(samples: seq<Sample>, reference: map<string, Reference>, feature: string, ln: real -> real): (r: Option<Score>)
    ensures |samples| < MinSamples ==> r.None?
    ensures r.None? <==> |samples| < MinSamples || feature !in reference || !WellFormed(reference[feature])
    ensures r.Some? ==>
      r.value == HistogramPsi(CurrentHistogram(samples, feature, reference[feature]), reference[feature].histogram, ln)
    ensures r == Some(NaN) <==>
      && r.Some?
      && (CountInRange(Values(samples, feature), reference[feature].bins) == 0 || Total(reference[feature].histogram) == 0)
  {
    if |samples| < MinSamples then None
    else if feature !in reference || !WellFormed(reference[feature]) then None
    else
      var ref := reference[feature];
      Some(HistogramPsi(CurrentHistogram(samples, feature, ref), ref.histogram, ln))
  }

  /** A computed PSI is never negative. */
  lemma CalculatePsiNonNegative(samples: seq<Sample>, reference: map<string, Reference>, feature: string, ln: real -> real)
    requires LogSign(ln)
    requires CalculatePsi(samples, reference, feature, ln).Some?
    requires CalculatePsi(samples, reference, feature, ln).value.Finite?
    ensures CalculatePsi(samples, reference, feature, ln).value.value >= 0.0
  {
    var ref := reference[feature];
    HistogramPsiNonNegative(CurrentHistogram(samples, feature, ref), ref.histogram, ln);
  }

  /** The detector's comparison: strictly above the threshold. NaN compares
      false, so it never drifts. */
  predicate IsDrifting(psi: Score, threshold: real)
  {
    psi.Finite? && psi.value > threshold
  }

  /** The PSI of every reference feature for which one was computed. */
  function ComputedScores(d: DriftDetector, ln: real -> real): (scores: map<string, Score>)
    ensures |d.samples| < MinSamples ==> scores == map[]
    ensures |d.samples| >= MinSamples ==>
      forall f :: f in scores <==> f in d.reference && WellFormed(d.reference[f])
    ensures forall f :: f in scores ==>
      scores[f] == HistogramPsi(CurrentHistogram(d.samples, f, d.reference[f]), d.reference[f].histogram, ln)
  {
    map f | f in d.reference && CalculatePsi(d.samples, d.reference, f, ln).Some? ::
      CalculatePsi(d.samples, d.reference, f, ln).value
  }

  /** `check_drift` at time `now`. */
  function CheckDrift(d: DriftDetector, now: Timestamp, ln: real -> real): (s: CheckStep)
    ensures s.detector.reference == d.reference && s.detector.threshold == d.threshold
    ensures s.detector.samples == d.samples
    ensures |d.samples| < MinSamples <==> s.result.InsufficientData?
    ensures |d.samples| < MinSamples ==> s.result.count == |d.samples| && s.detector.history == d.history
    ensures s.result.Completed? ==>
      && s.result.sampleCount == |d.samples|
      && s.result.timestamp == now
      && (forall f :: f in s.result.features <==> f in d.reference && WellFormed(d.reference[f]))
      && (forall f :: f in s.result.features ==>
            && s.result.features[f].psi == CalculatePsi(d.samples, d.reference, f, ln).value
            && (s.result.features[f].drifting <==>
                  s.result.features[f].psi.Finite? && s.result.features[f].psi.value > d.threshold))
      && (s.result.status == DriftDetected <==> exists f :: f in s.result.features && s.result.features[f].drifting)
    ensures s.result.Completed? ==>
      && s.detector.history.timestamps == d.history.timestamps + [now]
      && s.detector.history.driftScores.Keys == d.history.driftScores.Keys + s.result.features.Keys
      && (forall f :: f in s.result.features ==>
            s.detector.history.driftScores[f] == SeriesOf(d.history, f) + [s.result.features[f].psi])
      && (forall f :: f in d.history.driftScores && f !in s.result.features ==>
            s.detector.history.driftScores[f] == d.history.driftScores[f])
  {
    if |d.samples| < MinSamples then CheckStep(d, InsufficientData(|d.samples|))
    else
      var scores := ComputedScores(d, ln);
      var features := map f | f in scores :: FeatureResult(scores[f], IsDrifting(scores[f], d.threshold));
      var status := if exists f :: f in features && features[f].drifting then DriftDetected else Normal;
      CheckStep(
        d.(history := AppendEvaluation(d.history, now, scores)),
        Completed(status, features, |d.samples|, now))
  }

  /** `add_sample`: record the sample at `sampleTime`; when the new length
      triggers, run a drift check at `checkTime`. */
  function AddSample(d: DriftDetector, values: map<string, real>, sampleTime: Timestamp, checkTime: Timestamp, ln: real -> real): (o: AddOutcome)
    ensures o.ok
    ensures o.missing == d.reference.Keys - values.Keys
    ensures o.detector.samples == d.samples + [Sample(sampleTime, values)]
    ensures o.detector.reference == d.reference && o.detector.threshold == d.threshold
    ensures o.check.Some? <==> ShouldCheck(|d.samples| + 1)
    ensures o.check.None? ==> o.detector.history == d.history
    ensures o.check.Some? ==>
      && o.check.value.Completed?
      && o.check.value.sampleCount == |d.samples| + 1
      && o.detector.history.timestamps == d.history.timestamps + [checkTime]
    ensures o.check.Some? ==>
      var st := CheckDrift(d.(samples := d.samples + [Sample(sampleTime, values)]), checkTime, ln);
      o.detector == st.detector && o.check.value == st.result
  {
    var added := d.(samples := d.samples + [Sample(sampleTime, values)]);
    var missing := d.reference.Keys - values.Keys;
    if ShouldCheck(|added.samples|) then
      var step := CheckDrift(added, checkTime, ln);
      AddOutcome(step.detector, true, missing, Some(step.result))
    else
      AddOutcome(added, true, missing, None)
  }

  /** A call made on the detector: `add_sample` or a direct `check_drift`. */
  datatype Call =
    | Add(values: map<string, real>, sampleTime: Timestamp, checkTime: Timestamp)
    | Check(time: Timestamp)

  function Step(d: DriftDetector, c: Call, ln: real -> real): DriftDetector
  {
    match c
    case Add(values, sampleTime, checkTime) => AddSample(d, values, sampleTime, checkTime, ln).detector
    case Check(time) => CheckDrift(d, time, ln).detector
  }

  /** The detector after a sequence of calls, oldest first. */
  function Run(d: DriftDetector, calls: seq<Call>, ln: real -> real): DriftDetector
    decreases |calls|
  {
    if |calls| == 0 then d else Run(Step(d, calls[0], ln), calls[1..], ln)
  }

  /** The invariant of a detector started without a history file: the
      history has one series per reference feature, which is as long as the
      timestamp series when the reference entry is well formed and empty
      otherwise. */
  predicate Aligned(d: DriftDetector)
  {
    && d.history.driftScores.Keys == d.reference.Keys
    && forall f :: f in d.reference ==>
         |d.history.driftScores[f]| == (if WellFormed(d.reference[f]) then |d.history.timestamps| else 0)
  }

  lemma NewDetectorAligned(reference: map<string, Reference>, threshold: real, stored: HistoryFile)
    requires !stored.Parsed?
    ensures Aligned(NewDetector(reference, threshold, stored))
  {
  }

  lemma CheckDriftKeepsAligned(d: DriftDetector, now: Timestamp, ln: real -> real)
    requires Aligned(d)
    ensures Aligned(CheckDrift(d, now, ln).detector)
  {
  }

  lemma StepKeepsAligned(d: DriftDetector, c: Call, ln: real -> real)
    requires Aligned(d)
    ensures Aligned(Step(d, c, ln))
  {
  }

  /** Every detector reachable from a fresh one keeps the series aligned. */
  lemma {:induction false} RunKeepsAligned(d: DriftDetector, calls: seq<Call>, ln: real -> real)
    requires Aligned(d)
    ensures Aligned(Run(d, calls, ln))
    decreases |calls|
  {
    if |calls| > 0 {
      StepKeepsAligned(d, calls[0], ln);
      RunKeepsAligned(Step(d, calls[0], ln), calls[1..], ln);
    }
  }

  /** From any history whose series are no longer than its timestamps (in
      particular a stored one), no sequence of calls lets a series outgrow
      the timestamps. */
  lemma {:induction false} RunKeepsBounded(d: DriftDetector, calls: seq<Call>, ln: real -> real)
    requires SeriesBounded(d.history)
    ensures SeriesBounded(Run(d, calls, ln).history)
    decreases |calls|
  {
    if |calls| > 0 {
      var c := calls[0];
      match c {
        case Add(values, sampleTime, checkTime) =>
          var added := d.(samples := d.samples + [Sample(sampleTime, values)]);
          AppendKeepsBounded(d.history, checkTime, ComputedScores(added, ln));
        case Check(time) =>
          AppendKeepsBounded(d.history, time, ComputedScores(d, ln));
      }
      RunKeepsBounded(Step(d, c, ln), calls[1..], ln);
    }
  }

  /** The buffer is append-only: calls only add samples at the end, and never
      change the reference or the threshold. */
  lemma {:induction false} RunAppendOnly(d: DriftDetector, calls: seq<Call>, ln: real -> real)
    ensures |Run(d, calls, ln).samples| >= |d.samples|
    ensures Run(d, calls, ln).samples[..|d.samples|] == d.samples
    ensures Run(d, calls, ln).reference == d.reference && Run(d, calls, ln).threshold == d.threshold
    decreases |calls|
  {
    if |calls| > 0 {
      var next := Step(d, calls[0], ln);
      RunAppendOnly(next, calls[1..], ln);
      assert next.samples[..|d.samples|] == d.samples;
    }
  }
}
