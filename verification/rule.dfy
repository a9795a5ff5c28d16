/** The static conformity rule of the AdminPrometheus form: which update
    methods a metric type admits, in the order they are offered, and whether
    the type takes buckets. This is the table the controller's switch
    statement encodes, written as data over enumerations. */
module ConformityRule {

  import opened Wrappers

  /** The four metric types the type selector offers. */
  datatype MetricType = Counter | Gauge | Histogram | Summary

  /** The operations by which a metric's value may be updated. */
  datatype UpdateMethod = Inc | Dec | Set | Observe

  /** The option value under which a metric type is submitted. */
  function TypeName(t: MetricType): string
  {
    match t
    case Counter => "counter"
    case Gauge => "gauge"
    case Histogram => "histogram"
    case Summary => "summary"
  }

  /** The option value (and label) under which an update method is offered. */
  function MethodName(m: UpdateMethod): string
  {
    match m
    case Inc => "inc"
    case Dec => "dec"
    case Set => "set"
    case Observe => "observe"
  }

  /** Recognises a selector value as one of the four metric types; anything
      else, an absent value included, is not a metric type. */
  function ParseMetricType(v: Option<string>): (r: Option<MetricType>)
    ensures r.Some? ==> v == Some(TypeName(r.value))
    ensures v.Some? && v.value in {"counter", "gauge", "histogram", "summary"} <==> r.Some?
  {
    match v
    case Some("counter") => Some(Counter)
    case Some("gauge") => Some(Gauge)
    case Some("histogram") => Some(Histogram)
    case Some("summary") => Some(Summary)
    case _ => None
  }

  /** Reading back the name of a metric type yields that type. */
  lemma ParseTypeName(t: MetricType)
    ensures ParseMetricType(Some(TypeName(t))) == Some(t)
  {
  }

  /** The update methods a metric type admits, in the order they are offered
      (the first is the one a browser preselects). */
  function UpdateMethods(t: MetricType): (r: seq<UpdateMethod>)
    ensures 1 <= |r| <= 3
    ensures Observe in r <==> t in {Histogram, Summary}
    ensures forall i, j :: 0 <= i < j < |r| ==> r[i] != r[j]
  {
    match t
    case Counter => [Inc]
    case Gauge => [Set, Dec, Inc]
    case Histogram => [Observe]
    case Summary => [Observe]
  }

  /** Whether a metric type takes buckets (value distribution boundaries):
      only the distribution-recording types do. */
  function BucketsEnabled(t: MetricType): (r: bool)
    ensures r <==> Observe in UpdateMethods(t)
  {
    t == Histogram || t == Summary
  }

  /** Buckets are enabled for a type exactly when its only update method is
      `observe`, and every other type never offers `observe`. */
  lemma BucketsIffObserveOnly(t: MetricType)
    ensures BucketsEnabled(t) <==> UpdateMethods(t) == [Observe]
    ensures !BucketsEnabled(t) ==> Observe !in UpdateMethods(t)
  {
  }

}
