/**
 * The Instructor Management screen as a state machine: the component's state variables
 * become the fields of `Screen`, and each handler becomes a method that runs to
 * completion. Remote calls are not made here: each handler that would call the remote
 * table returns the call it issues and takes the call's outcome as an argument.
 */
module InstructorScreen {
  import opened Wrappers
  import opened Text
  import opened InstructorModel
  import opened Specialties

  /** The answer to reading the instructors table: rows (possibly `null`), or an error. */
  datatype FetchOutcome = Fetched(data: Option<seq<Instructor>>) | FetchFailed(message: string)

  /** The answer to an insert, update or delete: success, or an error with its message. */
  datatype WriteOutcome = Written | WriteFailed(message: string)

  /** The remote write a handler issues. */
  datatype RemoteCall =
    | NoCall
    | Insert(row: Instructor)
    | UpdateById(editedId: Option<string>, row: Instructor)
    | DeleteById(id: string)

  /** The list shown after a fetch: the rows read (`data || []`), or the old list on an error. */
  function AfterFetch(current: seq<Instructor>, outcome: FetchOutcome): seq<Instructor> {
    match outcome
    case Fetched(data) => if data.Some? then data.value else []
    case FetchFailed(_) => current
  }

  /**
   * The local `newErrors` map of `validateForm`, filled one rule at a time in the source's
   * order; it ends up equal to the error map the rules define.
   */
  method CollectErrors(d: Instructor) returns (newErrors: map<string, string>)
    ensures newErrors == FormErrors(d)
  {
    newErrors := map[];
    if Trim(d.name) == "" { newErrors := newErrors["name" := NameRequired]; }
    assert AgreesWithRule(d, newErrors, "name");
    if Trim(d.email) == "" { newErrors := newErrors["email" := EmailRequired]; }
    else if !EmailShapeOk(d.email) { newErrors := newErrors["email" := EmailInvalid]; }
    assert AgreesWithRule(d, newErrors, "name") && AgreesWithRule(d, newErrors, "email");
    if Trim(d.bio) == "" { newErrors := newErrors["bio" := BioRequired]; }
    assert AgreesWithRule(d, newErrors, "name") && AgreesWithRule(d, newErrors, "email");
    assert AgreesWithRule(d, newErrors, "bio");
    if d.experienceYears < 0 { newErrors := newErrors["experience_years" := ExperienceNegative]; }
    if |d.specialties| == 0 { newErrors := newErrors["specialties" := SpecialtiesRequired]; }
    FormErrorsByField(d, newErrors);
  }

  class Screen {
    var instructors: seq<Instructor>
    var loading: bool
    var saving: bool
    var showForm: bool
    var editingInstructor: Option<Instructor>
    var errors: map<string, string>
    var formData: Instructor
    var newSpecialty: string

    /** The form is closed, in create mode, blank and without errors: what `resetForm` leaves. */
    predicate FormIsReset()
      reads this
    {
      && !showForm
      && editingInstructor == None
      && errors == map[]
      && formData == BlankDraft
      && newSpecialty == ""
    }

    /** The state when the screen first renders, before the initial fetch completes. */
    constructor ()
      ensures instructors == [] && loading && !saving
      ensures FormIsReset()
    {
      instructors := [];
      loading := true;
      saving := false;
      showForm := false;
      editingInstructor := None;
      errors := map[];
      formData := BlankDraft;
      newSpecialty := "";
    }

    /**
     * `fetchInstructors`: the list becomes the rows read, and stays as it was when the read
     * fails; `loading` is false afterwards either way. Nothing else changes.
     */
    method FetchInstructors(outcome: FetchOutcome)
      modifies this
      ensures outcome.FetchFailed? ==> instructors == old(instructors)
      ensures outcome == Fetched(None) ==> instructors == []
      ensures outcome.Fetched? && outcome.data.Some? ==> instructors == outcome.data.value
      ensures !loading
      ensures saving == old(saving) && showForm == old(showForm)
      ensures editingInstructor == old(editingInstructor) && errors == old(errors)
      ensures formData == old(formData) && newSpecialty == old(newSpecialty)
    {
      loading := true;
      if outcome.Fetched? {
        instructors := if outcome.data.Some? then outcome.data.value else [];
      }
      loading := false;
    }

    /**
     * `handleInputChange(field, value)`: only `formData[field]` changes; a truthy error under
     * `field` becomes '' (the key is kept), and every other error is unchanged.
     */
    method HandleInputChange(e: FieldEdit)
      modifies this
      ensures formData == ApplyEdit(old(formData), e)
      ensures errors == ClearFieldError(old(errors), EditKey(e))
      ensures instructors == old(instructors) && loading == old(loading) && saving == old(saving)
      ensures showForm == old(showForm) && editingInstructor == old(editingInstructor)
      ensures newSpecialty == old(newSpecialty)
    {
      formData := ApplyEdit(formData, e);
      var key := EditKey(e);
      if key in errors && errors[key] != "" {
        errors := errors[key := ""];
      }
    }

    /** Typing into the specialty box. */
    method SetNewSpecialty(text: string)
      modifies this
      ensures newSpecialty == text
      ensures instructors == old(instructors) && loading == old(loading) && saving == old(saving)
      ensures showForm == old(showForm) && editingInstructor == old(editingInstructor)
      ensures errors == old(errors) && formData == old(formData)
    {
      newSpecialty := text;
    }

    /**
     * `handleAddSpecialty`: appends the trimmed box text when it is not blank and not listed,
     * and then clears the box; otherwise the list and the box stay as they were.
     */
    method HandleAddSpecialty()
      modifies this
      ensures (formData.specialties, newSpecialty) == AddSpecialty(old(formData.specialties), old(newSpecialty))
      ensures formData == old(formData).(specialties := formData.specialties)
      ensures instructors == old(instructors) && loading == old(loading) && saving == old(saving)
      ensures showForm == old(showForm) && editingInstructor == old(editingInstructor)
      ensures errors == old(errors)
    {
      var t := Trim(newSpecialty);
      if t != "" && t !in formData.specialties {
        formData := formData.(specialties := formData.specialties + [t]);
        newSpecialty := "";
      }
    }

    /** `handleRemoveSpecialty(x)`: drops every listed copy of `x`, keeping the rest in order. */
    method HandleRemoveSpecialty(x: string)
      modifies this
      ensures formData == old(formData).(specialties := RemoveSpecialty(old(formData.specialties), x))
      ensures instructors == old(instructors) && loading == old(loading) && saving == old(saving)
      ensures showForm == old(showForm) && editingInstructor == old(editingInstructor)
      ensures errors == old(errors) && newSpecialty == old(newSpecialty)
    {
      formData := formData.(specialties := RemoveSpecialty(formData.specialties, x));
    }

    /** A quick-add button: appends the suggestion untrimmed when absent; the box is untouched. */
    method QuickAddSpecialty(suggestion: string)
      modifies this
      ensures formData == old(formData).(specialties := QuickAdd(old(formData.specialties), suggestion))
      ensures instructors == old(instructors) && loading == old(loading) && saving == old(saving)
      ensures showForm == old(showForm) && editingInstructor == old(editingInstructor)
      ensures errors == old(errors) && newSpecialty == old(newSpecialty)
    {
      if suggestion !in formData.specialties {
        formData := formData.(specialties := formData.specialties + [suggestion]);
      }
    }

    /**
     * `validateForm`: collects the draft's errors, stores them as `errors`, and reports
     * whether there are none, which is exactly when the draft is valid.
     */
    method ValidateForm() returns (valid: bool)
      modifies this
      ensures errors == FormErrors(formData)
      ensures valid <==> errors == map[]
      ensures valid <==> ValidDraft(formData)
      ensures instructors == old(instructors) && loading == old(loading) && saving == old(saving)
      ensures showForm == old(showForm) && editingInstructor == old(editingInstructor)
      ensures formData == old(formData) && newSpecialty == old(newSpecialty)
    {
      var newErrors := CollectErrors(formData);
      errors := newErrors;
      valid := |newErrors| == 0;
      FormErrorsEmptyIffValid(formData);
    }

    /**
     * `handleSubmit`: an invalid draft stores its errors and issues no write. A valid draft
     * is written: by id when editing, as a new row otherwise. On success the list is
     * re-read and the form is reset; on failure the errors become exactly
     * `{general: message}` and the form stays open in the same mode. `saving` is false after.
     */
    method HandleSubmit(write: WriteOutcome, refetch: FetchOutcome) returns (call: RemoteCall)
      requires !saving
      modifies this
      ensures !saving
      ensures !ValidDraft(old(formData)) ==>
        && call == NoCall
        && errors == FormErrors(old(formData))
        && instructors == old(instructors) && loading == old(loading)
        && showForm == old(showForm) && editingInstructor == old(editingInstructor)
        && formData == old(formData) && newSpecialty == old(newSpecialty)
      ensures ValidDraft(old(formData)) ==>
        call == (if old(editingInstructor).Some?
                 then UpdateById(old(editingInstructor).value.id, old(formData))
                 else Insert(old(formData)))
      ensures ValidDraft(old(formData)) && write.Written? ==>
        && instructors == AfterFetch(old(instructors), refetch)
        && !loading
        && FormIsReset()
      ensures ValidDraft(old(formData)) && write.WriteFailed? ==>
        && errors == map["general" := write.message]
        && instructors == old(instructors) && loading == old(loading)
        && showForm == old(showForm) && editingInstructor == old(editingInstructor)
        && formData == old(formData) && newSpecialty == old(newSpecialty)
    {
      var valid := ValidateForm();
      if !valid {
        return NoCall;
      }
      saving := true;
      if editingInstructor.Some? {
        call := UpdateById(editingInstructor.value.id, formData);
      } else {
        call := Insert(formData);
      }
      if write.Written? {
        FetchInstructors(refetch);
        ResetForm();
      } else {
        errors := map["general" := write.message];
      }
      saving := false;
    }

    /** `handleEdit`: opens the form in edit mode on a copy of the row; errors and box are kept. */
    method HandleEdit(instructor: Instructor)
      modifies this
      ensures editingInstructor == Some(instructor) && formData == instructor && showForm
      ensures instructors == old(instructors) && loading == old(loading) && saving == old(saving)
      ensures errors == old(errors) && newSpecialty == old(newSpecialty)
    {
      editingInstructor := Some(instructor);
      formData := instructor;
      showForm := true;
    }

    /**
     * `handleDelete`: a declined confirmation issues no call and changes nothing; otherwise
     * a delete by id is issued, and only a successful one is followed by a re-read of the
     * list. A failed delete leaves the list unchanged.
     */
    method HandleDelete(id: string, confirmed: bool, outcome: WriteOutcome, refetch: FetchOutcome)
      returns (call: RemoteCall)
      modifies this
      ensures call == (if confirmed then DeleteById(id) else NoCall)
      ensures confirmed && outcome.Written? ==>
        instructors == AfterFetch(old(instructors), refetch) && !loading
      ensures !(confirmed && outcome.Written?) ==>
        instructors == old(instructors) && loading == old(loading)
      ensures saving == old(saving) && showForm == old(showForm)
      ensures editingInstructor == old(editingInstructor) && errors == old(errors)
      ensures formData == old(formData) && newSpecialty == old(newSpecialty)
    {
      if !confirmed {
        return NoCall;
      }
      call := DeleteById(id);
      if outcome.Written? {
        FetchInstructors(refetch);
      }
    }

    /** `resetForm` (also the form's close and cancel buttons). */
    method ResetForm()
      modifies this
      ensures FormIsReset()
      ensures instructors == old(instructors) && loading == old(loading) && saving == old(saving)
    {
      formData := BlankDraft;
      editingInstructor := None;
      showForm := false;
      errors := map[];
      newSpecialty := "";
    }

    /** The "Add Instructor" buttons: open the form as it is. */
    method OpenForm()
      modifies this
      ensures showForm
      ensures instructors == old(instructors) && loading == old(loading) && saving == old(saving)
      ensures editingInstructor == old(editingInstructor) && errors == old(errors)
      ensures formData == old(formData) && newSpecialty == old(newSpecialty)
    {
      showForm := true;
    }
  }

  // ---------------------------------------------------------------------------
  // Walk-throughs of the screen, stated as what a sequence of handlers leaves behind

  /**
   * Creating an instructor: fill in the form, add a specialty, submit; a successful insert
   * writes exactly the entered record, and the form ends closed and blank.
   */
  method CreateWalkThrough(initial: FetchOutcome, refetch: FetchOutcome)
    returns (call: RemoteCall, formReset: bool)
    ensures call == Insert(Instructor(None, "Jane Doe", "Experienced teacher", "jane@studio.com", "",
                                      ["Hatha Yoga"], 5, "", "", true))
    ensures formReset
  {
    var screen := new Screen();
    screen.FetchInstructors(initial);
    screen.OpenForm();
    screen.HandleInputChange(SetName("Jane Doe"));
    screen.HandleInputChange(SetEmail("jane@studio.com"));
    screen.HandleInputChange(SetBio("Experienced teacher"));
    screen.HandleInputChange(SetExperienceYears(5));
    screen.SetNewSpecialty("Hatha Yoga");
    QuickAddAgreesWithAdd([], 0);
    screen.HandleAddSpecialty();
    var d := Instructor(None, "Jane Doe", "Experienced teacher", "jane@studio.com", "",
                        ["Hatha Yoga"], 5, "", "", true);
    assert screen.formData == d;
    CompleteDraftIsValid();
    FormErrorsEmptyIffValid(d);
    call := screen.HandleSubmit(Written, refetch);
    formReset := screen.FormIsReset();
  }

  /** Editing a valid row and changing one field issues an update of that row by its id. */
  method EditWalkThrough(row: Instructor, years: int) returns (call: RemoteCall)
    requires ValidDraft(row) && years >= 0
    ensures call == UpdateById(row.id, row.(experienceYears := years))
  {
    var screen := new Screen();
    screen.HandleEdit(row);
    screen.HandleInputChange(SetExperienceYears(years));
    call := screen.HandleSubmit(Written, Fetched(None));
  }

  /** A declined delete confirmation issues no call and leaves the list as it was. */
  method DeclinedDeleteWalkThrough(rows: seq<Instructor>, id: string, outcome: WriteOutcome,
                                   refetch: FetchOutcome)
    returns (call: RemoteCall, after: seq<Instructor>)
    ensures call == NoCall && after == rows
  {
    var screen := new Screen();
    screen.FetchInstructors(Fetched(Some(rows)));
    call := screen.HandleDelete(id, false, outcome, refetch);
    after := screen.instructors;
  }
}
