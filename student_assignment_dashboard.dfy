/**
 * The student's assignment dashboard: the assignment selected for upload, the chosen file and
 * the submitting flag, changed by the initial-selection effect, the list, the file input and
 * the submit handler.
 */
module StudentAssignmentDashboard {
  import opened Wrappers
  import opened AssignmentSchema
  import opened AssignmentActions
  import opened AssignmentRowActions

  /** A file picked in the upload input; only its presence matters here. */
  datatype FileRef = FileRef(name: string)

  /** What `submitAssignment` is called with: the selected assignment's id and title. */
  datatype SubmitRequest = SubmitRequest(assignmentId: string, assignmentTitle: string)

  const NoAssignmentMessage := "Please select an assignment first."
  const NoFileMessage := "Please select a file to upload."

  /** The effect's choice: the first active assignment, else the first past one, else none. */
  function InitialSelection(active: seq<Assignment>, past: seq<Assignment>): (r: Option<Assignment>)
    ensures r.None? <==> active == [] && past == []
    ensures active != [] ==> r == Some(active[0])
    ensures active == [] && past != [] ==> r == Some(past[0])
  {
    if |active| > 0 then Some(active[0])
    else if |past| > 0 then Some(past[0])
    else None
  }

  /** The guard of `handleSubmit`: the missing selection is reported before the missing file. */
  function SubmitGuard(selected: Option<Assignment>, file: Option<FileRef>): (r: Result<SubmitRequest, string>)
    ensures selected.None? ==> r == Err(NoAssignmentMessage)
    ensures selected.Some? && file.None? ==> r == Err(NoFileMessage)
    ensures r.Ok? <==> selected.Some? && file.Some?
    ensures r.Ok? ==> r.value == SubmitRequest(selected.value.id, selected.value.title)
  {
    if selected.None? then Err(NoAssignmentMessage)
    else if file.None? then Err(NoFileMessage)
    else Ok(SubmitRequest(selected.value.id, selected.value.title))
  }

  class AssignmentDashboard {
    var selected: Option<Assignment>
    var file: Option<FileRef>
    var isSubmitting: bool
    var toasts: seq<Toast>

    constructor ()
      ensures selected.None? && file.None? && !isSubmitting && toasts == []
    {
      selected := None;
      file := None;
      isSubmitting := false;
      toasts := [];
    }

    /** The initial-selection effect, run whenever the two lists change. */
    method LoadAssignments(active: seq<Assignment>, past: seq<Assignment>)
      modifies this
      ensures selected == InitialSelection(active, past)
      ensures file == old(file) && isSubmitting == old(isSubmitting) && toasts == old(toasts)
    {
      if |active| > 0 {
        selected := Some(active[0]);
      } else if |past| > 0 {
        selected := Some(past[0]);
      } else {
        selected := None;
      }
    }

    /** A click on a card, active or past alike: no due date is checked. */
    method Select(a: Assignment)
      modifies this
      ensures selected == Some(a)
      ensures file == old(file) && isSubmitting == old(isSubmitting) && toasts == old(toasts)
    {
      selected := Some(a);
    }

    /**
     * `handleFileChange`: the first picked file, or none when the input is emptied. The input is
     * rendered only beside a selected assignment and is disabled while a submission is in flight.
     */
    method FileChange(files: seq<FileRef>)
      requires selected.Some? && !isSubmitting
      modifies this
      ensures file == (if files == [] then None else Some(files[0]))
      ensures selected == old(selected) && isSubmitting == old(isSubmitting) && toasts == old(toasts)
    {
      if |files| > 0 {
        file := Some(files[0]);
      } else {
        file := None;
      }
    }

    /** The button's `disabled`. */
    predicate SubmitDisabled()
      reads this
    {
      isSubmitting || file.None?
    }

    /**
     * `handleSubmit` up to the server call: a failed guard shows its error toast and sends nothing;
     * otherwise `isSubmitting` is set and the request is returned to be sent.
     */
    method BeginSubmit() returns (request: Option<SubmitRequest>)
      modifies this
      ensures request.Some? <==> old(selected).Some? && old(file).Some?
      ensures request.Some? ==> && request.value == SubmitRequest(old(selected).value.id, old(selected).value.title)
                                && isSubmitting && toasts == old(toasts)
      ensures request.None? ==> && isSubmitting == old(isSubmitting)
                                && toasts == old(toasts) + [Toast("Error", SubmitGuard(old(selected), old(file)).error, true)]
      ensures selected == old(selected) && file == old(file)
    {
      var guard := SubmitGuard(selected, file);
      if guard.Err? {
        toasts := toasts + [Toast("Error", guard.error, true)];
        return None;
      }
      isSubmitting := true;
      request := Some(guard.value);
    }

    /**
     * A click on the submit button. The button is rendered only beside a selected assignment, and
     * a disabled button does nothing: while a submission is in flight no second request goes out,
     * and neither guard message of `handleSubmit` can come from a click.
     */
    method ClickSubmit() returns (request: Option<SubmitRequest>)
      requires selected.Some?
      modifies this
      ensures old(SubmitDisabled()) ==> && request.None? && toasts == old(toasts)
                                        && isSubmitting == old(isSubmitting)
      ensures !old(SubmitDisabled()) ==> && request == Some(SubmitRequest(old(selected).value.id, old(selected).value.title))
                                         && isSubmitting && toasts == old(toasts)
      ensures selected == old(selected) && file == old(file)
    {
      if SubmitDisabled() {
        return None;
      }
      request := BeginSubmit();
    }

    /**
     * `handleSubmit` after the server call: the file is cleared on success and kept on failure,
     * and `isSubmitting` is false whatever the outcome.
     */
    method FinishSubmit(result: ActionResult)
      modifies this
      ensures !isSubmitting
      ensures file == (if result.success then None else old(file))
      ensures toasts == old(toasts) + [if result.success then Toast("Success!", result.message, false)
                                       else Toast("Submission Failed", result.message, true)]
      ensures selected == old(selected)
    {
      if result.success {
        toasts := toasts + [Toast("Success!", result.message, false)];
        file := None;
      } else {
        toasts := toasts + [Toast("Submission Failed", result.message, true)];
      }
      isSubmitting := false;
    }
  }
}
