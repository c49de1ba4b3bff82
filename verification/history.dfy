/** Vocabulary shared by the drift detector and the drift visualiser: PSI
    scores as the history stores them, timestamps, and the drift history
    record (a timestamp series plus one score series per feature). */
module History {

  datatype Option<+T> = None | Some(value: T)

  /** An ISO-8601 timestamp string. The model never parses it. */
  type Timestamp = string

  /** A PSI value as a Python float: a real number, or NaN when one of the
      two histograms it compares sums to zero. */
  datatype Score = Finite(value: real) | NaN

  /** The persisted history: `timestamps` grows by one per completed drift
      check, `driftScores` maps a feature to the PSI values recorded for it. */
  datatype DriftHistory = DriftHistory(timestamps: seq<Timestamp>, driftScores: map<string, seq<Score>>)

  /** What reading the history file produced. */
  datatype HistoryFile = Missing | Unreadable | Parsed(history: DriftHistory)

  /** No feature series is longer than the timestamp series. */
  predicate SeriesBounded(h: DriftHistory)
  {
    forall f :: f in h.driftScores ==> |h.driftScores[f]| <= |h.timestamps|
  }

  /** The series recorded so far for `f`, empty when the key is absent. */
  function SeriesOf(h: DriftHistory, f: string): seq<Score>
  {
    if f in h.driftScores then h.driftScores[f] else []
  }

  /** A history with no timestamps and an empty series for each of `features`. */
  function EmptyHistory(features: set<string>): (h: DriftHistory)
    ensures |h.timestamps| == 0
    ensures h.driftScores.Keys == features
    ensures forall f :: f in h.driftScores ==> |h.driftScores[f]| == 0
    ensures SeriesBounded(h)
  {
    DriftHistory([], map f | f in features :: [])
  }

  /** Records one completed check at time `t`: one timestamp, and one score
      for each feature of `scores`, creating the series when it is missing. */
  function AppendEvaluation(h: DriftHistory, t: Timestamp, scores: map<string, Score>): (h': DriftHistory)
    ensures h'.timestamps == h.timestamps + [t]
    ensures h'.driftScores.Keys == h.driftScores.Keys + scores.Keys
    ensures forall f :: f in scores ==> h'.driftScores[f] == SeriesOf(h, f) + [scores[f]]
    ensures forall f :: f in h.driftScores && f !in scores ==> h'.driftScores[f] == h.driftScores[f]
  {
    DriftHistory(
      h.timestamps + [t],
      map f | f in h.driftScores.Keys + scores.Keys ::
        if f in scores then SeriesOf(h, f) + [scores[f]] else h.driftScores[f])
  }

  /** Appending an evaluation never lets a feature series outgrow the
      timestamp series. */
  lemma AppendKeepsBounded(h: DriftHistory, t: Timestamp, scores: map<string, Score>)
    requires SeriesBounded(h)
    ensures SeriesBounded(AppendEvaluation(h, t, scores))
  {
  }
}
