/** The AdminPrometheus page around the controller: the metric-type selector,
    which a page variant may lack, the two dependent controls, the guarded
    synchronisation `Init` performs, and the `change` handler bound to the
    selector. */
module AdminPage {

  import opened Wrappers
  import opened ConformityRule
  import opened FormState
  import opened Conformity

  /** The `select#MetricType` control: missing from the page, or present with
      its current value (none when it has no selected option). */
  datatype TypeSelector = Absent | Present(value: Option<string>)

  datatype Page = Page(metricType: TypeSelector, form: Form)

  /** The steady state of the form: the selector is present and the
      dependent controls conform to its value. For a metric type the form
      holds exactly that type's row of the rule table; for any other value
      the list is empty and the buckets flag is whatever it was. */
  predicate Synchronized(p: Page)
  {
    && p.metricType.Present?
    && match ParseMetricType(p.metricType.value)
       case Some(t) => p.form == Form(Render(UpdateMethods(t)), !BucketsEnabled(t))
       case None => p.form.options == []
  }

  /** Page initialisation: synchronises the dependent controls with the
      selector when, and only when, the selector is on the page. The
      selector itself is never changed. */
  function Init(p: Page): (r: Page)
    ensures r.metricType == p.metricType
    ensures p.metricType.Absent? ==> r == p
    ensures p.metricType.Present? ==> Synchronized(r)
    ensures p.metricType.Present? && ParseMetricType(p.metricType.value).None? ==>
              r.form.bucketsDisabled == p.form.bucketsDisabled
  {
    if p.metricType.Present? then
      p.(form := Apply(p.form, p.metricType.value))
    else
      p
  }

  /** Initialising twice is initialising once. */
  lemma InitIdempotent(p: Page)
    ensures Init(Init(p)) == Init(p)
  {
  }

  /** A page already in the steady state is left as it is by `Init`. */
  lemma InitFixesSynchronized(p: Page)
    requires Synchronized(p)
    ensures Init(p) == p
  {
  }

  /** The user picks a value on the selector and the bound `change` handler
      runs. On a page without the selector no handler is bound and nothing
      can be picked, so the page stays as it is. */
  function ChangeTo(p: Page, v: Option<string>): (r: Page)
    ensures p.metricType.Absent? ==> r == p
    ensures p.metricType.Present? ==> r.metricType == Present(v) && Synchronized(r)
    ensures p.metricType.Present? && ParseMetricType(v).None? ==>
              r.form.bucketsDisabled == p.form.bucketsDisabled
  {
    match p.metricType
    case Absent => p
    case Present(_) => Page(Present(v), Apply(p.form, v))
  }

  /** A run of user selections, each followed by the handler. Without the
      selector the page never changes; with it, the page ends showing the
      last selection with the controls synchronised to it. */
  function Replay(p: Page, vs: seq<Option<string>>): (r: Page)
    ensures p.metricType.Absent? ==> r == p
    ensures p.metricType.Present? && vs != [] ==>
              r.metricType == Present(vs[|vs| - 1]) && Synchronized(r)
    ensures p.metricType.Present? && vs == [] ==> r == p
    decreases |vs|
  {
    if vs == [] then p else Replay(ChangeTo(p, vs[0]), vs[1..])
  }

  /** One more selection at the end of a run is one more handler call. */
  lemma {:induction false} ReplaySnoc(p: Page, vs: seq<Option<string>>, v: Option<string>)
    ensures Replay(p, vs + [v]) == ChangeTo(Replay(p, vs), v)
    decreases |vs|
  {
    if vs == [] {
      assert [] + [v] == [v];
    } else {
      assert (vs + [v])[1..] == vs[1..] + [v];
      ReplaySnoc(ChangeTo(p, vs[0]), vs[1..], v);
    }
  }

  /** The buckets flag a run of selections should leave, read from the back:
      the flag of the last selected metric type, or the initial flag when no
      selection named a metric type. */
  function BucketsAfter(initial: bool, vs: seq<Option<string>>): bool
    decreases |vs|
  {
    if vs == [] then initial
    else
      match ParseMetricType(vs[|vs| - 1])
      case Some(t) => !BucketsEnabled(t)
      case None => BucketsAfter(initial, vs[..|vs| - 1])
  }

  /** After a non-empty run of selections on a page with the selector, the
      selector shows the last value, the list is determined by that value
      alone, and the buckets flag is the one the last recognised metric type
      set, or the initial flag if there was none. */
  lemma {:induction false} ReplayOutcome(p: Page, vs: seq<Option<string>>)
    requires p.metricType.Present?
    requires vs != []
    ensures var q := Replay(p, vs);
            && q.metricType == Present(vs[|vs| - 1])
            && Synchronized(q)
            && q.form.bucketsDisabled == BucketsAfter(p.form.bucketsDisabled, vs)
    decreases |vs|
  {
    var init, v := vs[..|vs| - 1], vs[|vs| - 1];
    assert vs == init + [v];
    ReplaySnoc(p, init, v);
    if init != [] {
      ReplayOutcome(p, init);
    }
  }

  /** Switching from `histogram` to `counter`: buckets go from enabled to
      disabled and the list goes from `[observe]` to `[inc]`. */
  lemma HistogramToCounter(p: Page)
    requires p.metricType.Present?
    ensures ChangeTo(p, Some("histogram")).form == Form([Opt("observe")], false)
    ensures Replay(p, [Some("histogram"), Some("counter")]).form == Form([Opt("inc")], true)
  {
  }

}
