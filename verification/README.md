# AdminPrometheus metric form: conformity of the dependent controls

The AdminPrometheus screen configures a custom metric for the Prometheus
exporter. Its script `Core.Agent.Admin.Prometheus` keeps two controls in line
with the selected metric type (`select#MetricType`):

- the update-method select (`select#UpdateMethod`) is emptied and refilled
  with the methods the type admits: `counter` → `inc`; `gauge` → `set`, `dec`,
  `inc`; `histogram` and `summary` → `observe`;
- the buckets field (`#MetricBuckets`) is disabled for `counter` and `gauge`
  and enabled for `histogram` and `summary`.

Any other value, or no value at all, leaves the update-method list empty and
the buckets field as it was, because the `switch` has no `default` branch.
`Init` runs this synchronisation once on page load, but only when the type
selector is on the page. The same handler is bound to the selector's `change`
event.

The model is purely functional:

- `Wrappers`: `Option`, the value read from a control that may hold nothing.
- `ConformityRule`: the metric types and update methods as enumerations, and
  the static rule table (`UpdateMethods`, `BucketsEnabled`).
- `FormState`: the two dependent controls as an immutable `Form` record. The
  jQuery mutations `.empty()`, `.append(option)` and `.prop('disabled', b)` are
  `Command`s interpreted by `Exec`.
- `Conformity`: `Script` lists the handler's mutations statement by statement,
  matching on the raw selector string as the `switch` does. `Apply` runs that
  script. The lemmas prove it agrees with the rule table and has the promised
  properties.
- `AdminPage`: the page with a selector that may be absent, `Init`, the
  `change` handler (`ChangeTo`) and runs of user selections (`Replay`).

## Model

| member | source | states |
|---|---|---|
| ConformityRule.ParseMetricType | var/httpd/htdocs/js/Core.Agent.Admin.Prometheus.js:32-53 | a selector value is recognised exactly when it is one of the strings `counter`, `gauge`, `histogram`, `summary`, and the recognised type's name is that string |
| ConformityRule.UpdateMethods | var/httpd/htdocs/js/Core.Agent.Admin.Prometheus.js:35-52 | every metric type admits one to three update methods, none of them twice, and `observe` is among them exactly for `histogram` and `summary` |
| ConformityRule.BucketsEnabled | var/httpd/htdocs/js/Core.Agent.Admin.Prometheus.js:35-52 | the buckets column of the rule table (`disabled` false at lines 47 and 51, true at lines 37 and 43): a type takes buckets exactly when `observe` is among its update methods |
| ConformityRule.BucketsIffObserveOnly | var/httpd/htdocs/js/Core.Agent.Admin.Prometheus.js:35-52 | in the rule table, buckets are enabled exactly for the types whose only method is `observe`, and the other types never offer `observe` |
| FormState.Step | var/httpd/htdocs/js/Core.Agent.Admin.Prometheus.js:33-51 | `.empty()` clears the list and keeps the buckets flag; `.append` adds one option at the end and keeps everything before it; `.prop('disabled', b)` sets the flag and keeps the list |
| FormState.ExecAppends | var/httpd/htdocs/js/Core.Agent.Admin.Prometheus.js:40-42 | a run of appends extends the list by exactly the appended options, in the order appended, and leaves the buckets flag alone |
| FormState.ExecReplace | var/httpd/htdocs/js/Core.Agent.Admin.Prometheus.js:33-52 | clearing, appending and then setting the buckets flag leaves exactly the appended options and the set flag, whatever the form held before |
| Conformity.Script | var/httpd/htdocs/js/Core.Agent.Admin.Prometheus.js:33-53 | whatever the value, the handler first empties the list (line 33) and never empties it again; it does nothing more exactly when the value is not one of the four type names; otherwise its last step sets the buckets flag |
| Conformity.Render | var/httpd/htdocs/js/Core.Agent.Admin.Prometheus.js:36-50 | the options offered for a list of methods keep the list's order and length, and each option's value and text are the method's name |
| Conformity.ScriptFollowsRule | var/httpd/htdocs/js/Core.Agent.Admin.Prometheus.js:33-52 | for each metric type, the handler's branch clears the list, appends that type's methods from the rule table in table order, and sets the buckets flag to the table's value inverted |
| Conformity.Apply | var/httpd/htdocs/js/Core.Agent.Admin.Prometheus.js:31-56 | for a recognised type the form ends as exactly that type's methods with buckets disabled iff the type takes no buckets; for any other or absent value the list is empty and the buckets flag is unchanged |
| Conformity.ApplyCounter | var/httpd/htdocs/js/Core.Agent.Admin.Prometheus.js:35-38 | selecting `counter` leaves exactly `[inc]` and buckets disabled |
| Conformity.ApplyGauge | var/httpd/htdocs/js/Core.Agent.Admin.Prometheus.js:39-44 | selecting `gauge` leaves exactly `[set, dec, inc]` in that order and buckets disabled |
| Conformity.ApplyHistogramSummary | var/httpd/htdocs/js/Core.Agent.Admin.Prometheus.js:45-52 | selecting `histogram` or `summary` leaves exactly `[observe]` and buckets enabled |
| Conformity.ApplyUnknown | var/httpd/htdocs/js/Core.Agent.Admin.Prometheus.js:33-53 | any value other than the four type names, an absent one included, empties the list and keeps the buckets flag it found |
| Conformity.ApplyForgetsOptions | var/httpd/htdocs/js/Core.Agent.Admin.Prometheus.js:33 | no earlier option survives: the resulting list depends on the selected value only, and the whole result depends only on the value and the previous buckets flag |
| Conformity.ApplyIdempotent | var/httpd/htdocs/js/Core.Agent.Admin.Prometheus.js:33-53 | running the handler a second time with the same value changes nothing, so options are never duplicated |
| Conformity.ApplyOptionsWellFormed | var/httpd/htdocs/js/Core.Agent.Admin.Prometheus.js:36-50 | every produced option has value equal to its text, and the value is one of `inc`, `dec`, `set`, `observe` |
| Conformity.ApplyBucketsIffObserve | var/httpd/htdocs/js/Core.Agent.Admin.Prometheus.js:35-52 | for the four types, buckets end enabled exactly when the list is `[observe]`, and that happens exactly for `histogram` and `summary` |
| AdminPage.Init | var/httpd/htdocs/js/Core.Agent.Admin.Prometheus.js:58-61 | with no selector on the page the page is unchanged; with one, the controls end synchronised with its value, and the selector is never altered |
| AdminPage.InitIdempotent | var/httpd/htdocs/js/Core.Agent.Admin.Prometheus.js:58-61 | initialising twice gives the same page as initialising once |
| AdminPage.InitFixesSynchronized | var/httpd/htdocs/js/Core.Agent.Admin.Prometheus.js:58-61 | on a page already synchronised with its selector, initialisation changes nothing |
| AdminPage.ChangeTo | var/httpd/htdocs/js/Core.Agent.Admin.Prometheus.js:63 | a selection on the page's selector shows the new value and leaves the controls synchronised with it, keeping the buckets flag when the value is not a metric type; without a selector nothing is bound and the page is unchanged |
| AdminPage.Replay | var/httpd/htdocs/js/Core.Agent.Admin.Prometheus.js:63 | a run of `change` events leaves a page without the selector unchanged; on a page with it, a non-empty run ends with the selector showing the last value and the controls synchronised to it |
| AdminPage.ReplaySnoc | var/httpd/htdocs/js/Core.Agent.Admin.Prometheus.js:63 | a run of selections followed by one more is that run followed by one more handler call |
| AdminPage.ReplayOutcome | var/httpd/htdocs/js/Core.Agent.Admin.Prometheus.js:31-63 | after any non-empty run of selections the selector shows the last value, the controls are synchronised with it, and the buckets flag is the one set by the last recognised type, or the initial flag when no selection was recognised |
| AdminPage.HistogramToCounter | var/httpd/htdocs/js/Core.Agent.Admin.Prometheus.js:35-52 | switching from `histogram` to `counter` moves the list from `[observe]` to `[inc]` and the buckets field from enabled to disabled |

## Left out

- `Core.UI.Table.InitTableFilter` (line 59): a table-filtering collaborator
  whose code is not part of this model. `Init` is modelled without it, so the
  model does not show that the filter is bound when the selector is absent.
- `Core.Init.RegisterNamespace` (line 64) and the namespace boilerplate
  (lines 11-22, 66-67): module-registration plumbing with no effect on the
  form.
- The constant `return 1` (line 55): callers do not use it.
- DOM and events: jQuery selectors and the event machinery are abstracted.
  The two dependent controls are the `Form` record, the type selector is
  `TypeSelector`, and the `change` binding (line 63) is `ChangeTo`. The binding
  happens when the script loads, and the model takes the page's controls to be
  the same then as later.
- The browser's preselection of the first appended option is not modelled. The
  order of the list is modelled, and the first element is the option a browser
  would preselect.
- ConformityRule.UpdateMethods: its own contract gives only the bounds,
  distinctness and the `observe` rule. The exact list for each type is stated
  about `Apply` in `ApplyCounter`, `ApplyGauge` and `ApplyHistogramSummary`.
