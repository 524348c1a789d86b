/**
 * The task form component: a title, a description and a completed flag
 * seeded from optional initial data, an error record, and a submit
 * handler that hands the form to its caller only when the title is not
 * blank. The caller's `onSubmit` is modelled by returning what it would
 * receive.
 */
module TaskFormComponent {
  import opened Wrappers
  import opened Text
  import opened FormChecks

  /** `initialData`: `title` is required, the other two may be absent. */
  datatype InitialData = InitialData(title: string, description: Option<string>, completed: Option<bool>)

  datatype FormData = FormData(title: string, description: string, completed: bool)

  /** The three inputs, each with what its change event carries. */
  datatype Change = TitleInput(value: string) | DescriptionInput(value: string) | CompletedInput(checked: bool)

  /** The `name` attribute of the input that raised the change. */
  function Key(c: Change): string {
    match c
    case TitleInput(_) => "title"
    case DescriptionInput(_) => "description"
    case CompletedInput(_) => "completed"
  }

  /** `{ ...prev, [name]: type === 'checkbox' ? checked : value }`. */
  function Applied(form: FormData, c: Change): FormData {
    match c
    case TitleInput(v) => form.(title := v)
    case DescriptionInput(v) => form.(description := v)
    case CompletedInput(b) => form.(completed := b)
  }

  const TITLE_REQUIRED: string := "Title is required"

  /** The error record validation leaves: a `title` entry exactly for a blank title, nothing else. */
  predicate Reports(form: FormData, errors: Errors) {
    && errors.Keys <= {"title"}
    && ("title" in errors <==> IsBlank(form.title))
    && ("title" in errors ==> errors["title"] == TITLE_REQUIRED)
  }

  /** The only check of `validateForm`: a fresh record with a `title` entry exactly when the title is blank. */
  method CheckTitle(form: FormData) returns (newErrors: Errors)
    ensures Reports(form, newErrors)
  {
    var trimmed := Trim(form.title);
    TrimEmptyIffBlank(form.title);
    newErrors := map[];
    if trimmed == [] {
      newErrors := newErrors["title" := TITLE_REQUIRED];
      assert newErrors.Keys == {"title"};
    }
  }

  class TaskForm {
    var form: FormData
    var errors: Errors

    ghost predicate Valid()
      reads this
    {
      Truthy(errors)
    }

    /**
     * `useState({...})`: each field falls back through `||`, so an absent
     * value (and, for the flag, `false`) gives '', '' and `false`.
     */
    constructor(initial: Option<InitialData>)
      ensures Valid() && errors == map[]
      ensures initial.None? ==> form == FormData("", "", false)
      ensures initial.Some? ==> form.title == initial.value.title
      ensures initial.Some? && initial.value.description.Some? ==> form.description == initial.value.description.value
      ensures initial.Some? && initial.value.description.None? ==> form.description == ""
      ensures form.completed <==> initial.Some? && initial.value.completed == Some(true)
    {
      errors := map[];
      match initial
      case None =>
        form := FormData("", "", false);
      case Some(data) =>
        var description := if data.description.Some? then data.description.value else "";
        var completed := data.completed.Some? && data.completed.value;
        form := FormData(data.title, description, completed);
    }

    /** `handleChange`: the edited field takes the new value and only its error is cleared. */
    method HandleChange(c: Change)
      requires Valid()
      modifies this
      ensures Valid()
      ensures form == Applied(old(form), c)
      ensures errors == old(errors) - {Key(c)}
    {
      form := Applied(form, c);
      var name := Key(c);
      if name in errors && errors[name] != [] {
        errors := errors - {name};
      }
    }

    /** `validateForm`: replaces the error record and answers whether it is empty. */
    method ValidateForm() returns (ok: bool)
      requires Valid()
      modifies this
      ensures Valid() && form == old(form)
      ensures Reports(form, errors)
      ensures ok <==> !IsBlank(form.title)
      ensures ok <==> errors == map[]
    {
      var newErrors := CheckTitle(form);
      errors := newErrors;
      ok := |newErrors| == 0;
      assert ok <==> "title" !in newErrors;
    }

    /** `handleSubmit`: `onSubmit` receives the form as it stands, and only when its title is not blank. */
    method HandleSubmit() returns (submitted: Option<FormData>)
      requires Valid()
      modifies this
      ensures Valid() && form == old(form)
      ensures Reports(form, errors)
      ensures submitted.Some? <==> !IsBlank(form.title)
      ensures submitted.Some? ==> submitted.value == form
    {
      var ok := ValidateForm();
      if !ok {
        return None;
      }
      submitted := Some(form);
    }
  }
}
