/** The two dependent controls of the AdminPrometheus form, abstracted from
    the DOM: the option list of the `UpdateMethod` select and the disabled flag
    of the `MetricBuckets` field. The jQuery mutations the controller performs
    on them (`.empty()`, `.append(...)`, `.prop('disabled', ...)`) are commands
    interpreted by `Exec`, so that a handler is a literal list of the
    statements it runs. */
module FormState {

  /** One `<option>` element: its submitted value and its visible text. */
  datatype MethodOption = MethodOption(value: string, text: string)

  /** The state of the two dependent controls. */
  datatype Form = Form(options: seq<MethodOption>, bucketsDisabled: bool)

  /** One DOM mutation of the dependent controls. */
  datatype Command =
    | EmptyOptions                        // removes every option of the update-method select
    | AppendOption(option: MethodOption)  // adds one option at the end of that select
    | SetBucketsDisabled(disabled: bool)  // sets the disabled flag of the buckets field

  /** The effect of a single command. */
  function Step(f: Form, c: Command): (r: Form)
    ensures c.EmptyOptions? ==> r.options == [] && r.bucketsDisabled == f.bucketsDisabled
    ensures c.AppendOption? ==>
              |r.options| == |f.options| + 1 && r.options[..|f.options|] == f.options
              && r.options[|f.options|] == c.option && r.bucketsDisabled == f.bucketsDisabled
    ensures c.SetBucketsDisabled? ==> r.options == f.options && r.bucketsDisabled == c.disabled
  {
    match c
    case EmptyOptions => f.(options := [])
    case AppendOption(o) => f.(options := f.options + [o])
    case SetBucketsDisabled(d) => f.(bucketsDisabled := d)
  }

  /** Runs a list of commands in order. */
  function Exec(f: Form, cs: seq<Command>): Form
    decreases |cs|
  {
    if cs == [] then f else Exec(Step(f, cs[0]), cs[1..])
  }

  /** Running two lists one after the other is running their concatenation. */
  lemma {:induction false} ExecConcat(f: Form, a: seq<Command>, b: seq<Command>)
    ensures Exec(f, a + b) == Exec(Exec(f, a), b)
    decreases |a|
  {
    if a == [] {
      assert a + b == b;
    } else {
      assert (a + b)[1..] == a[1..] + b;
      ExecConcat(Step(f, a[0]), a[1..], b);
    }
  }

  /** The commands appending the given options one by one. */
  function Appends(opts: seq<MethodOption>): (r: seq<Command>)
    ensures |r| == |opts|
    ensures forall i :: 0 <= i < |r| ==> r[i] == AppendOption(opts[i])
  {
    if opts == [] then [] else [AppendOption(opts[0])] + Appends(opts[1..])
  }

  /** Appending options one by one extends the list by exactly those options,
      in order, and leaves the buckets flag alone. */
  lemma {:induction false} ExecAppends(f: Form, opts: seq<MethodOption>)
    ensures Exec(f, Appends(opts)) == Form(f.options + opts, f.bucketsDisabled)
    decreases |opts|
  {
    if opts == [] {
      assert f.options + opts == f.options;
    } else {
      var f' := Step(f, AppendOption(opts[0]));
      assert Appends(opts)[1..] == Appends(opts[1..]);
      ExecAppends(f', opts[1..]);
      assert f'.options + opts[1..] == f.options + opts;
    }
  }

  /** Clearing the list, appending options and then setting the buckets flag
      leaves exactly those options and that flag, whatever the form held
      before. */
  lemma ExecReplace(f: Form, opts: seq<MethodOption>, disabled: bool)
    ensures Exec(f, [EmptyOptions] + Appends(opts) + [SetBucketsDisabled(disabled)])
            == Form(opts, disabled)
  {
    var cleared := Step(f, EmptyOptions);
    ExecConcat(f, [EmptyOptions] + Appends(opts), [SetBucketsDisabled(disabled)]);
    ExecConcat(f, [EmptyOptions], Appends(opts));
    assert Exec(f, [EmptyOptions]) == cleared;
    ExecAppends(cleared, opts);
    assert cleared.options + opts == opts;
    var filled := Form(opts, f.bucketsDisabled);
    assert Exec(filled, [SetBucketsDisabled(disabled)]) == Form(opts, disabled);
  }

  /** Clearing the list and appending nothing else leaves an empty list and
      the buckets flag as it was. */
  lemma ExecClearOnly(f: Form)
    ensures Exec(f, [EmptyOptions]) == Form([], f.bucketsDisabled)
  {
  }

}
