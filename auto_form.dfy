/**
 * The generic form of frontend/src/components/AutoForm.tsx: its `inputs`,
 * `errors` and `serverError` state, the submit handler's validation loop
 * over the field descriptions, and `handleChange`.
 */
module AutoForm {
  import opened Wrappers
  import opened AxiosErrors

  /**
   * A field description: its name, an optional `pattern` (the RegExp's
   * `test`, a parameter of the model) and an optional `errorMessage`.
   */
  datatype Field = Field(name: string, pattern: Option<string -> bool>, errorMessage: Option<string>)

  /** A falsy string: absent or empty. */
  predicate Blank(s: Option<string>)
  {
    s.None? || s.value == ""
  }

  /**
   * The test of the loop: the field fails when its input is missing or empty,
   * or its pattern rejects the input, and it has a (non-empty) errorMessage.
   */
  predicate Fails(f: Field, inputs: map<string, string>)
  {
    var input := if f.name in inputs then Some(inputs[f.name]) else None;
    && (Blank(input) || (f.pattern.Some? && !f.pattern.value(input.value)))
    && !Blank(f.errorMessage)
  }

  /** The errors entry the loop writes for one field: its errorMessage if it failed, otherwise "". */
  function Entry(f: Field, inputs: map<string, string>): (e: string)
    ensures e != "" <==> Fails(f, inputs)
    ensures Fails(f, inputs) ==> e == f.errorMessage.value
  {
    if Fails(f, inputs) then f.errorMessage.value else ""
  }

  /** The errors map after the queued `setErrors` updates of the fields, applied in order. */
  function ErrorsAfter(errors: map<string, string>, fields: seq<Field>, inputs: map<string, string>): (r: map<string, string>)
    ensures errors.Keys <= r.Keys
    ensures forall i :: 0 <= i < |fields| ==> fields[i].name in r
    decreases |fields|
  {
    if fields == [] then errors
    else
      var f := fields[|fields| - 1];
      ErrorsAfter(errors, fields[..|fields| - 1], inputs)[f.name := Entry(f, inputs)]
  }

  /** Some field fails. */
  predicate AnyFails(fields: seq<Field>, inputs: map<string, string>)
  {
    exists i :: 0 <= i < |fields| && Fails(fields[i], inputs)
  }

  /**
   * After a submit every field has an entry, and the entry of the last
   * field of each name is that field's own: its errorMessage when it
   * failed, "" otherwise; entries of names not in the form are kept.
   */
  lemma {:induction false} ErrorsAfterEntries(errors: map<string, string>, fields: seq<Field>, inputs: map<string, string>, i: nat)
    requires i < |fields|
    requires forall j :: i < j < |fields| ==> fields[j].name != fields[i].name
    ensures ErrorsAfter(errors, fields, inputs)[fields[i].name] == Entry(fields[i], inputs)
    decreases |fields|
  {
    var last := |fields| - 1;
    if i < last {
      assert fields[..last][i] == fields[i];
      forall j | i < j < |fields[..last]|
        ensures fields[..last][j].name != fields[..last][i].name
      {
        assert fields[..last][j] == fields[j];
      }
      ErrorsAfterEntries(errors, fields[..last], inputs, i);
    }
  }

  /** Entries for names that are not fields of the form are left as they were. */
  lemma {:induction false} ErrorsAfterKeepsOthers(errors: map<string, string>, fields: seq<Field>, inputs: map<string, string>, name: string)
    requires name in errors && forall f :: f in fields ==> f.name != name
    ensures ErrorsAfter(errors, fields, inputs)[name] == errors[name]
    decreases |fields|
  {
    if fields != [] {
      var last := |fields| - 1;
      forall f | f in fields[..last]
        ensures f.name != name
      {
        assert f in fields;
      }
      ErrorsAfterKeepsOthers(errors, fields[..last], inputs, name);
    }
  }

  /** A field without an errorMessage (the dueDate field of the task form) never fails, whatever its input. */
  lemma FieldWithoutMessageNeverBlocks(fields: seq<Field>, inputs: map<string, string>, k: nat)
    requires k < |fields| && Blank(fields[k].errorMessage)
    requires forall j :: 0 <= j < |fields| && j != k ==> !Fails(fields[j], inputs)
    ensures !AnyFails(fields, inputs)
  {
  }

  /** The result of `onSubmit(inputs)`: resolved, or rejected with an axios error. */
  datatype SubmitResult = Resolved | RejectedWith(error: AxiosError)

  class Form {
    var inputs: map<string, string>
    var errors: map<string, string>
    var serverError: Option<AxiosError>
    /** The inputs `onSubmit` was called with, one entry per call. */
    var submitted: seq<map<string, string>>

    constructor ()
      ensures inputs == map[] && errors == map[] && serverError == None && submitted == []
    {
      inputs := map[];
      errors := map[];
      serverError := None;
      submitted := [];
    }

    /**
     * `handleSubmit`: every field's errors entry is written in turn; when no
     * field failed, `onSubmit` is called once with the inputs and a
     * rejection is stored in `serverError` rather than rethrown.
     */
    method HandleSubmit(fields: seq<Field>, result: SubmitResult)
      modifies this
      ensures inputs == old(inputs)
      ensures errors == ErrorsAfter(old(errors), fields, inputs)
      ensures !AnyFails(fields, inputs) ==> submitted == old(submitted) + [inputs]
      ensures AnyFails(fields, inputs) ==> submitted == old(submitted)
      ensures serverError == (if !AnyFails(fields, inputs) && result.RejectedWith? then Some(result.error) else old(serverError))
    {
      var error := false;
      var i := 0;
      while i < |fields|
        invariant 0 <= i <= |fields|
        invariant inputs == old(inputs) && submitted == old(submitted) && serverError == old(serverError)
        invariant errors == ErrorsAfter(old(errors), fields[..i], inputs)
        invariant error <==> exists j :: 0 <= j < i && Fails(fields[j], inputs)
      {
        var f := fields[i];
        if Fails(f, inputs) {
          errors := errors[f.name := f.errorMessage.value];
          error := true;
        } else {
          errors := errors[f.name := ""];
        }
        assert fields[..i + 1][..i] == fields[..i];
        i := i + 1;
      }
      assert fields[..i] == fields;
      if !error {
        submitted := submitted + [inputs];
        if result.RejectedWith? {
          serverError := Some(result.error);
        }
      }
    }

    /** `handleChange`: only the named input changes. */
    method HandleChange(name: string, value: string)
      modifies this
      ensures inputs == old(inputs)[name := value]
      ensures errors == old(errors) && serverError == old(serverError) && submitted == old(submitted)
    {
      inputs := inputs[name := value];
    }
  }
}
