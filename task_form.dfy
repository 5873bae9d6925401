/**
 * The task form component: its `formData` and `error` state, input changes,
 * title validation and the submit that sends a normalised `addTask` request
 * to the store and resets the form.
 */
module TaskFormComponent {
  import opened Tasks
  import opened Text

  /** The longest title the form accepts, counted on the untrimmed input. */
  const MaxTitleLength: nat := 100

  /** The fields the user edits. */
  datatype FormData = FormData(title: string, description: string, priority: Priority)

  /** `INITIAL_FORM_DATA`: empty title and description, medium priority. */
  const InitialFormData := FormData("", "", Medium)

  /** The two validation messages; the form's `error` is "" when there is none. */
  datatype ValidationError = EmptyTitle | TitleTooLong

  /** One `onChange` event: the named field and its new value. */
  datatype InputChange =
    | TitleInput(title: string)
    | DescriptionInput(description: string)
    | PriorityInput(priority: Priority)

  /** The form data after an input change: the named field is overwritten, the others kept. */
  function ApplyChange(form: FormData, change: InputChange): (r: FormData)
    ensures change.TitleInput? ==> r.title == change.title
    ensures change.DescriptionInput? ==> r.description == change.description
    ensures change.PriorityInput? ==> r.priority == change.priority
    ensures !change.TitleInput? ==> r.title == form.title
    ensures !change.DescriptionInput? ==> r.description == form.description
    ensures !change.PriorityInput? ==> r.priority == form.priority
  {
    match change
    case TitleInput(v) => form.(title := v)
    case DescriptionInput(v) => form.(description := v)
    case PriorityInput(v) => form.(priority := v)
  }

  /**
   * The checks of `validateForm`, in their order: a title that is blank once
   * trimmed is refused first; otherwise a title longer than the limit,
   * counting its surrounding whitespace, is refused. `None` is success.
   */
  function Validate(form: FormData): (r: Option<ValidationError>)
    ensures r == Some(EmptyTitle) <==> Blank(form.title)
    ensures r == Some(TitleTooLong) <==> !Blank(form.title) && |form.title| > MaxTitleLength
    ensures r == None <==> !Blank(form.title) && |form.title| <= MaxTitleLength
  {
    if Trim(form.title) == "" then Some(EmptyTitle)
    else if |form.title| > MaxTitleLength then Some(TitleTooLong)
    else None
  }

  /**
   * The `addTask` payload built from the form: trimmed title, the form's
   * priority, status `todo`, and the trimmed description, or no description
   * when it is blank.
   */
  function NewTaskFrom(form: FormData): (t: NewTask)
    ensures t.title == Trim(form.title) && t.priority == form.priority && t.status == Todo
    ensures t.description.None? <==> Blank(form.description)
    ensures t.description.Some? ==> t.description.value == Trim(form.description) && t.description.value != ""
  {
    var d := Trim(form.description);
    NewTask(Trim(form.title), if d == "" then None else Some(d), form.priority, Todo)
  }

  /**
   * What every task the form sends satisfies: a title of 1 to 100 characters
   * with no whitespace at either end, status `todo`, and a description that
   * is either absent or a non-empty trimmed string.
   */
  predicate WellFormed(t: NewTask) {
    && |t.title| <= MaxTitleLength && IsTrimmedNonEmpty(t.title)
    && t.status == Todo
    && (t.description.Some? ==> IsTrimmedNonEmpty(t.description.value))
  }

  /** A form that passes validation yields a well-formed task: trimming never lengthens the title. */
  lemma ValidFormGivesWellFormedTask(form: FormData)
    requires Validate(form) == None
    ensures WellFormed(NewTaskFrom(form))
  {
  }

  /**
   * Validation looks at the raw title: a single letter followed by enough
   * spaces to pass the limit is refused as too long, although it trims to
   * one character.
   */
  lemma PaddedTitleIsTooLong(title: string)
    requires |title| > MaxTitleLength && title[0] == 'a' && Blank(title[1..])
    ensures |Trim(title)| == 1
    ensures Validate(FormData(title, "", Medium)) == Some(TitleTooLong)
  {
    assert !IsWhitespace(title[0]);
    assert forall k :: 1 <= k < |title| ==> IsWhitespace(title[k]) by {
      forall k | 1 <= k < |title| ensures IsWhitespace(title[k]) {
        assert title[k] == title[1..][k - 1];
      }
    }
  }

  /** Every request in `rs` is an `addTask` of a well-formed task. */
  predicate AllWellFormedAdds(rs: seq<StoreRequest>) {
    forall i :: 0 <= i < |rs| ==> rs[i].AddTask? && WellFormed(rs[i].task)
  }

  /** Sending one more well-formed task keeps every sent task well-formed. */
  lemma AppendKeepsWellFormed(rs: seq<StoreRequest>, t: NewTask)
    requires AllWellFormedAdds(rs) && WellFormed(t)
    ensures AllWellFormedAdds(rs + [AddTask(t)])
  {
  }

  /** The form component: its state and the log of `addTask` requests it has sent. */
  class TaskForm {
    var formData: FormData
    var error: Option<ValidationError>
    var requests: seq<StoreRequest>

    /** Every request sent is an `addTask` of a well-formed task. */
    ghost predicate Valid()
      reads this
    {
      AllWellFormedAdds(requests)
    }

    /** A fresh form: initial data, no error, nothing sent. */
    constructor ()
      ensures formData == InitialFormData && error == None && requests == []
      ensures Valid()
    {
      formData := InitialFormData;
      error := None;
      requests := [];
    }

    /** `handleInputChange`: overwrites the named field and clears the error. */
    method HandleInputChange(change: InputChange)
      requires Valid()
      modifies this`formData, this`error
      ensures Valid()
      ensures formData == ApplyChange(old(formData), change)
      ensures error == None
    {
      formData := ApplyChange(formData, change);
      if error.Some? {
        error := None;
      }
    }

    /** `validateForm`: reports whether the form is valid, and sets the error when it is not. */
    method ValidateForm() returns (ok: bool)
      modifies this`error
      ensures ok <==> Validate(formData) == None
      ensures error == if ok then old(error) else Validate(formData)
    {
      if Trim(formData.title) == "" {
        error := Some(EmptyTitle);
        return false;
      }
      if |formData.title| > MaxTitleLength {
        error := Some(TitleTooLong);
        return false;
      }
      return true;
    }

    /**
     * `handleSubmit`: an invalid form only gets its error set; a valid one is
     * sent to the store as a normalised new task, then the form is reset.
     */
    method HandleSubmit()
      requires Valid()
      modifies this`formData, this`error, this`requests
      ensures Valid()
      ensures Validate(old(formData)).Some? ==>
        && formData == old(formData) && requests == old(requests)
        && error == Validate(old(formData))
      ensures Validate(old(formData)).None? ==>
        && requests == old(requests) + [AddTask(NewTaskFrom(old(formData)))]
        && formData == InitialFormData && error == None
    {
      var ok := ValidateForm();
      if !ok {
        return;
      }
      var t := NewTaskFrom(formData);
      ValidFormGivesWellFormedTask(formData);
      AppendKeepsWellFormed(requests, t);
      requests := requests + [AddTask(t)];
      formData := InitialFormData;
      error := None;
    }
  }
}
