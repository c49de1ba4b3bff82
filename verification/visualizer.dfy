/** The data side of the drift visualiser: the empty-history default, the
    severity colour of a PSI marker, and the guards and series alignment that
    the per-feature plot and the heatmap apply to the history before any
    figure is drawn. */
module Visualizer {
  import opened History
  import Detector

  datatype Colour = Green | Orange | Red

  /** The marker colour: green below 0.1, orange below 0.2, red otherwise.
      Both comparisons are false for NaN, so NaN is red. */
  function SeverityColour(s: Score): (c: Colour)
    ensures c == Green <==> s.Finite? && s.value < 0.1
    ensures c == Orange <==> s.Finite? && 0.1 <= s.value < 0.2
    ensures c == Red <==> s.NaN? || s.value >= 0.2
  {
    if s.Finite? && s.value < 0.1 then Green
    else if s.Finite? && s.value < 0.2 then Orange
    else Red
  }

  function Rank(c: Colour): nat
  {
    match c
    case Green => 0
    case Orange => 1
    case Red => 2
  }

  /** A larger PSI never gets a milder colour. */
  lemma ColourMonotone(x: real, y: real)
    requires x <= y
    ensures Rank(SeverityColour(Finite(x))) <= Rank(SeverityColour(Finite(y)))
  {
  }

  /** The boundaries belong to the upper band: 0.1 is orange and 0.2 is red. */
  lemma ColourBoundaries()
    ensures SeverityColour(Finite(0.05)) == Green
    ensures SeverityColour(Finite(0.1)) == Orange && SeverityColour(Finite(0.15)) == Orange
    ensures SeverityColour(Finite(0.2)) == Red && SeverityColour(Finite(0.25)) == Red
  {
  }

  /** With the default threshold every drifting feature is drawn red, and a
      red marker belongs to a feature the detector does not call drifting
      exactly when its PSI is NaN or exactly 0.2: the detector's comparison
      is strict while the colour rule's is not. */
  lemma ColourVersusDrifting(s: Score)
    ensures Detector.IsDrifting(s, Detector.DefaultThreshold) ==> SeverityColour(s) == Red
    ensures (SeverityColour(s) == Red && !Detector.IsDrifting(s, Detector.DefaultThreshold))
        <==> (s == NaN || s == Finite(0.2))
  {
  }

  /** What loading the optional reference statistics produced: no path was
      given or the file does not exist, it parsed, or reading it failed. */
  datatype ReferenceFile = NoReference | ReferenceParsed | ReferenceUnreadable

  /** `_load_data`. The history and the reference are read inside one
      handler, so a failing reference read discards a history that was
      already read. The result is the parsed history when both reads
      succeed, and the empty history (no timestamps, no feature series)
      otherwise. */
  function LoadData(file: HistoryFile, reference: ReferenceFile): (h: DriftHistory)
    ensures file.Parsed? && !reference.ReferenceUnreadable? ==> h == file.history
    ensures !file.Parsed? || reference.ReferenceUnreadable? ==> |h.timestamps| == 0 && |h.driftScores| == 0
  {
    if file.Parsed? && !reference.ReferenceUnreadable? then file.history
    else DriftHistory([], map[])
  }

  /** Python's `xs[-k:]` for `k >= 0`: the last `k` elements, except that
      `-0` is `0`, so `k == 0` keeps the whole list. */
  function PyTail<T>(xs: seq<T>, k: nat): (r: seq<T>)
    ensures k == 0 || k >= |xs| ==> r == xs
    ensures 0 < k <= |xs| ==> |r| == k && xs == xs[..|xs| - k] + r
  {
    if k == 0 || k >= |xs| then xs else xs[|xs| - k..]
  }

  function Min(a: nat, b: nat): nat
  {
    if a <= b then a else b
  }

  /** The per-feature plot's alignment: the longer of the two series is cut
      to the length of the shorter by `[-len(shorter):]`. */
  function AlignSeries<A, B>(ts: seq<A>, ss: seq<B>): (r: (seq<A>, seq<B>))
    ensures |ts| > 0 && |ss| > 0 ==> |r.0| == |r.1| == Min(|ts|, |ss|)
    ensures |ts| > 0 && |ss| > 0 ==> ts[|ts| - |r.0|..] == r.0 && ss[|ss| - |r.1|..] == r.1
  {
    if |ts| > |ss| then (PyTail(ts, |ss|), ss)
    else if |ss| > |ts| then (ts, PyTail(ss, |ts|))
    else (ts, ss)
  }

  /** Without the empty-series guard the alignment would fail: cutting to
      `[-0:]` keeps every timestamp against no score. */
  lemma UnguardedAlignmentMismatch<A, B>(ts: seq<A>, ss: seq<B>)
    requires |ts| > 0 && |ss| == 0
    ensures AlignSeries(ts, ss).0 == ts
    ensures |AlignSeries(ts, ss).0| != |AlignSeries(ts, ss).1|
  {
  }

  datatype FeaturePlot =
    | NoFeatureData
    | FeatureSeries(times: seq<Timestamp>, scores: seq<Score>, colours: seq<Colour>)

  /** `generate_feature_drift_plot`, without the figure: the empty figure when
      there are no timestamps or no scores for the feature, otherwise the
      aligned points and their marker colours. */
  function FeatureDriftPlot(h: DriftHistory, feature: string): (p: FeaturePlot)
    ensures p.NoFeatureData? <==>
      |h.timestamps| == 0 || feature !in h.driftScores || |h.driftScores[feature]| == 0
    ensures p.FeatureSeries? ==>
      var ts := h.timestamps;
      var ss := h.driftScores[feature];
      && |p.times| == |p.scores| == |p.colours| == Min(|ts|, |ss|)
      && ts[|ts| - |p.times|..] == p.times
      && ss[|ss| - |p.scores|..] == p.scores
      && forall i :: 0 <= i < |p.scores| ==> p.colours[i] == SeverityColour(p.scores[i])
  {
    if |h.timestamps| == 0 || feature !in h.driftScores || |h.driftScores[feature]| == 0 then NoFeatureData
    else
      var aligned := AlignSeries(h.timestamps, h.driftScores[feature]);
      FeatureSeries(aligned.0, aligned.1, seq(|aligned.1|, i requires 0 <= i < |aligned.1| => SeverityColour(aligned.1[i])))
  }

  /** On a history whose series are no longer than its timestamps (every
      history the detector writes from a fresh start), the plot keeps every
      score and pairs it with the most recent timestamps. */
  lemma FeaturePlotKeepsScores(h: DriftHistory, feature: string)
    requires SeriesBounded(h)
    requires FeatureDriftPlot(h, feature).FeatureSeries?
    ensures FeatureDriftPlot(h, feature).scores == h.driftScores[feature]
    ensures FeatureDriftPlot(h, feature).times == h.timestamps[|h.timestamps| - |h.driftScores[feature]|..]
  {
    var ts, ss := h.timestamps, h.driftScores[feature];
    assert |ss| <= |ts|;
    var aligned := AlignSeries(ts, ss);
    assert aligned.1 == ss;
  }

  /** One heatmap row: the scores padded at the end with None up to `n`
      entries, or cut to their first `n`. */
  function AlignRow(scores: seq<Score>, n: nat): (row: seq<Option<Score>>)
    ensures |row| == n
    ensures forall j :: 0 <= j < n ==> row[j] == if j < |scores| then Some(scores[j]) else None
  {
    if |scores| < n then
      seq(|scores|, j requires 0 <= j < |scores| => Some(scores[j])) + seq(n - |scores|, _ => None)
    else if |scores| > n then
      seq(n, j requires 0 <= j < n => Some(scores[j]))
    else
      seq(|scores|, j requires 0 <= j < |scores| => Some(scores[j]))
  }

  /** `order` lists every key of `m` exactly once, as `list(m.keys())` does. */
  ghost predicate ListsKeys(order: seq<string>, m: map<string, seq<Score>>)
  {
    && (forall i, j :: 0 <= i < j < |order| ==> order[i] != order[j])
    && (forall k :: k in m <==> k in order)
  }

  /** The heatmap height: 400 pixels, or 30 per feature plus 100 when that is more. */
  function HeatmapHeight(features: nat): (height: int)
    ensures height >= 400 && height >= 100 + 30 * features
    ensures height == 400 || height == 100 + 30 * features
  {
    if 100 + 30 * features >= 400 then 100 + 30 * features else 400
  }

  /** The height never shrinks as features are added, and stays at its
      minimum of 400 for up to ten features. */
  lemma HeatmapHeightShape(m: nat, n: nat)
    requires m <= n
    ensures HeatmapHeight(m) <= HeatmapHeight(n)
    ensures HeatmapHeight(n) == 400 <==> n <= 10
  {
  }

  datatype HeatmapData =
    | NoHeatmapData
    | Heatmap(features: seq<string>, times: seq<Timestamp>, rows: seq<seq<Option<Score>>>, height: int)

  /** Whether the heatmap has nothing to show: no timestamps, no feature
      series, or only empty ones. */
  predicate HeatmapEmpty(h: DriftHistory)
  {
    |h.timestamps| == 0 || |h.driftScores| == 0 || forall f :: f in h.driftScores ==> |h.driftScores[f]| == 0
  }

  /** `generate_drift_heatmap`, without the figure. The rows follow `order`,
      the dictionary's key order. The second emptiness check of the source,
      on the finished rows, can never fire: every row has one entry per
      timestamp and there is at least one row. */
  function DriftHeatmap(h: DriftHistory, order: seq<string>): (r: HeatmapData)
    requires ListsKeys(order, h.driftScores)
    ensures r.NoHeatmapData? <==> HeatmapEmpty(h)
    ensures r.Heatmap? ==>
      && r.features == order
      && r.times == h.timestamps
      && r.height == HeatmapHeight(|order|)
      && |r.rows| == |order| >= 1
      && forall i :: 0 <= i < |order| ==> |r.rows[i]| == |h.timestamps| >= 1
    ensures r.Heatmap? ==>
      forall i, j :: 0 <= i < |order| && 0 <= j < |h.timestamps| ==>
        r.rows[i][j] == if j < |h.driftScores[order[i]]| then Some(h.driftScores[order[i]][j]) else None
  {
    if HeatmapEmpty(h) then NoHeatmapData
    else
      assert |order| >= 1 by {
        var k :| k in h.driftScores;
        assert k in order;
      }
      var n := |h.timestamps|;
      var rows := seq(|order|, i requires 0 <= i < |order| => AlignRow(h.driftScores[order[i]], n));
      Heatmap(order, h.timestamps, rows, HeatmapHeight(|order|))
  }

  /** On a history whose series are no longer than its timestamps, no row is
      cut: each row starts with all of its feature's scores, in order. */
  lemma HeatmapKeepsScores(h: DriftHistory, order: seq<string>, i: nat, j: nat)
    requires ListsKeys(order, h.driftScores) && SeriesBounded(h)
    requires DriftHeatmap(h, order).Heatmap?
    requires i < |order| && j < |h.driftScores[order[i]]|
    ensures DriftHeatmap(h, order).rows[i][j] == Some(h.driftScores[order[i]][j])
  {
  }

  /** After a failed load both views fall back to their empty figure: the
      feature plot for every feature, and the heatmap. */
  lemma FailedLoadDrawsNothing(file: HistoryFile, reference: ReferenceFile, feature: string)
    requires !file.Parsed? || reference.ReferenceUnreadable?
    ensures FeatureDriftPlot(LoadData(file, reference), feature).NoFeatureData?
    ensures HeatmapEmpty(LoadData(file, reference))
  {
  }
}
