/** `UpdateMetricTypeConformity`: on every change of the metric-type
    selector, clear the update-method list, refill it for the selected type
    and enable or disable the buckets field. `Script` is the handler's body
    statement by statement; `Apply` runs it on a form. */
module Conformity {

  import opened Wrappers
  import opened ConformityRule
  import opened FormState

  /** An option whose value and text are both the given text, as the
      handler writes every `<option>`. */
  function Opt(name: string): MethodOption
  {
    MethodOption(name, name)
  }

  /** The mutations the handler performs for a selector value: it always
      empties the list first, then acts on the four type names and does
      nothing further for any other value (the switch has no default). */
  function Script(selected: Option<string>): (r: seq<Command>)
    ensures |r| >= 1 && r[0] == EmptyOptions
    ensures forall i :: 1 <= i < |r| ==> !r[i].EmptyOptions?
    ensures r == [EmptyOptions] <==> ParseMetricType(selected).None?
    ensures |r| > 1 ==> r[|r| - 1].SetBucketsDisabled?
  {
    [EmptyOptions] +
    match selected
    case Some("counter") =>
      [AppendOption(Opt("inc")),
       SetBucketsDisabled(true)]
    case Some("gauge") =>
      [AppendOption(Opt("set")),
       AppendOption(Opt("dec")),
       AppendOption(Opt("inc")),
       SetBucketsDisabled(true)]
    case Some("histogram") =>
      [AppendOption(Opt("observe")),
       SetBucketsDisabled(false)]
    case Some("summary") =>
      [AppendOption(Opt("observe")),
       SetBucketsDisabled(false)]
    case _ => []
  }

  /** The options offered for a sequence of update methods, in the same
      order, each with value and text equal to the method's name. */
  function Render(ms: seq<UpdateMethod>): (r: seq<MethodOption>)
    ensures |r| == |ms|
    ensures forall i :: 0 <= i < |ms| ==> r[i] == Opt(MethodName(ms[i]))
  {
    if ms == [] then [] else [Opt(MethodName(ms[0]))] + Render(ms[1..])
  }

  /** Each type's branch of the handler is the rule table's row for it:
      clear, append the rendered methods, set the buckets flag. */
  lemma ScriptFollowsRule(t: MetricType)
    ensures Script(Some(TypeName(t)))
            == [EmptyOptions] + Appends(Render(UpdateMethods(t)))
               + [SetBucketsDisabled(!BucketsEnabled(t))]
  {
  }

  /** Runs the handler on a form with the given selector value. For one of
      the four metric types the list becomes exactly that type's methods and
      the buckets field is disabled exactly when the type takes no buckets;
      for any other value, an absent one included, the list is left empty
      and the buckets flag keeps its earlier value. */
  function Apply(f: Form, selected: Option<string>): (r: Form)
    ensures ParseMetricType(selected).Some? ==>
              var t := ParseMetricType(selected).value;
              r == Form(Render(UpdateMethods(t)), !BucketsEnabled(t))
    ensures ParseMetricType(selected).None? ==>
              r == Form([], f.bucketsDisabled)
  {
    match ParseMetricType(selected)
    case Some(t) =>
      ScriptFollowsRule(t);
      ExecReplace(f, Render(UpdateMethods(t)), !BucketsEnabled(t));
      Exec(f, Script(selected))
    case None =>
      ExecClearOnly(f);
      Exec(f, Script(selected))
  }

  /** Selecting `counter` offers exactly `[inc]` and disables buckets. */
  lemma ApplyCounter(f: Form)
    ensures Apply(f, Some("counter")) == Form([Opt("inc")], true)
  {
  }

  /** Selecting `gauge` offers exactly `[set, dec, inc]`, in that order, and
      disables buckets. */
  lemma ApplyGauge(f: Form)
    ensures Apply(f, Some("gauge")) == Form([Opt("set"), Opt("dec"), Opt("inc")], true)
  {
  }

  /** Selecting `histogram` or `summary` offers exactly `[observe]` and
      enables buckets. */
  lemma ApplyHistogramSummary(f: Form, selected: string)
    requires selected == "histogram" || selected == "summary"
    ensures Apply(f, Some(selected)) == Form([Opt("observe")], false)
  {
  }

  /** Any other selector value empties the list and leaves the buckets flag
      as it was. */
  lemma ApplyUnknown(f: Form, selected: Option<string>)
    requires selected.None? || selected.value !in {"counter", "gauge", "histogram", "summary"}
    ensures Apply(f, selected).options == []
    ensures Apply(f, selected).bucketsDisabled == f.bucketsDisabled
  {
  }

  /** No earlier option survives: for the same selector value, forms that
      differ in their options end with the same options, and forms that
      agree on the buckets flag end identical. */
  lemma ApplyForgetsOptions(f: Form, g: Form, selected: Option<string>)
    ensures Apply(f, selected).options == Apply(g, selected).options
    ensures f.bucketsDisabled == g.bucketsDisabled ==> Apply(f, selected) == Apply(g, selected)
  {
  }

  /** Running the handler twice with the same value is running it once. */
  lemma ApplyIdempotent(f: Form, selected: Option<string>)
    ensures Apply(Apply(f, selected), selected) == Apply(f, selected)
  {
  }

  /** Every offered option has its value equal to its text, and that value
      is one of `inc`, `dec`, `set`, `observe`. */
  lemma ApplyOptionsWellFormed(f: Form, selected: Option<string>)
    ensures forall o :: o in Apply(f, selected).options ==>
              o.value == o.text && o.value in {"inc", "dec", "set", "observe"}
  {
  }

  /** For the four metric types, buckets end up enabled exactly when the list
      is `[observe]`, which is exactly for `histogram` and `summary`. */
  lemma ApplyBucketsIffObserve(f: Form, t: MetricType)
    ensures !Apply(f, Some(TypeName(t))).bucketsDisabled
            <==> Apply(f, Some(TypeName(t))).options == [Opt("observe")]
    ensures !Apply(f, Some(TypeName(t))).bucketsDisabled <==> t == Histogram || t == Summary
  {
  }

}
