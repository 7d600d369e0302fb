/**
 * The admin server actions for assignments: validate the form, call the store, and turn
 * whatever the store throws into a `{ success, message }` result.
 */
module AssignmentActions {
  import opened Wrappers
  import opened Text
  import opened Lists
  import opened Zod
  import opened AssignmentSchema
  import opened AssignmentData

  /** `{ success, message }`, the shape every server action returns. */
  datatype ActionResult = ActionResult(success: bool, message: string)

  const AddedMessage := "Assignment added successfully."
  const AddFailedMessage := "An unknown error occurred while adding the assignment."
  const UpdatedMessage := "Assignment updated successfully."
  const UpdateFailedMessage := "An unknown error occurred while updating the assignment."
  const StatusFailedMessage := "Failed to update assignment status."
  const DeletedMessage := "Assignment deleted successfully."
  const DeleteFailedMessage := "Failed to delete assignment."

  /** The status action's success message, naming the direction of the change. */
  function StatusMessage(status: Status): (m: string)
    ensures m == "Assignment has been published." <==> status == Published
    ensures m == "Assignment has been unpublished." <==> status == Draft
  {
    "Assignment has been " + (if status == Published then "published" else "unpublished") + "."
  }

  /** The validation failure result: the issue messages joined by ", ". */
  function Rejected(issues: seq<string>): ActionResult {
    ActionResult(false, Join(issues, ", "))
  }

  /** The catch block of add and update: a `ZodError` gives its messages, any other error the fixed text. */
  function Caught(e: StoreError, unknown: string): ActionResult {
    match e
    case Invalid(issues) => Rejected(issues)
    case NotFound(_) => ActionResult(false, unknown)
  }

  /** The edit form addresses the record by the id it carries, so an update never changes a record's id. */
  lemma UpdateKeepsId(isUrl: string -> bool, rows: seq<Assignment>, e: AssignmentEdit)
    requires AfterUpdate(isUrl, rows, e.id, e).Ok?
    ensures var k := FirstIndex(rows, HasId(e.id));
            AfterUpdate(isUrl, rows, e.id, e).value[k].id == rows[k].id
  {
  }

  /** `addAssignment`. */
  method AddAssignment(table: AssignmentTable, isUrl: string -> bool, data: AssignmentInput) returns (r: ActionResult)
    requires table.Valid()
    modifies table
    ensures table.Valid()
    ensures ParseAddForm(data).Err? ==> r == Rejected(ParseAddForm(data).error) && table.rows == old(table.rows)
    ensures ParseAddForm(data).Ok? ==> && r == ActionResult(true, AddedMessage)
                                       && table.rows == AfterAdd(isUrl, old(table.rows), ParseAddForm(data).value).value
  {
    var form := ParseAddForm(data);
    if form.Err? {
      return Rejected(form.error);
    }
    var stored := table.AddMockAssignment(isUrl, form.value);
    match stored
    case Ok(_) => r := ActionResult(true, AddedMessage);
    case Err(e) => r := Caught(e, AddFailedMessage);
  }

  /** `updateAssignment`: once the form is valid, the only way to fail is an id the table does not hold. */
  method UpdateAssignment(table: AssignmentTable, isUrl: string -> bool, data: AssignmentInput) returns (r: ActionResult)
    requires table.Valid()
    modifies table
    ensures table.Valid()
    ensures ParseUpdateForm(data).Err? ==> r == Rejected(ParseUpdateForm(data).error) && table.rows == old(table.rows)
    ensures ParseUpdateForm(data).Ok? ==>
              var e := ParseUpdateForm(data).value;
              && (r.success <==> FirstIndex(old(table.rows), HasId(e.id)) >= 0)
              && (r.success ==> r.message == UpdatedMessage
                                && table.rows == AfterUpdate(isUrl, old(table.rows), e.id, e).value)
              && (!r.success ==> r.message == UpdateFailedMessage && table.rows == old(table.rows))
  {
    var form := ParseUpdateForm(data);
    if form.Err? {
      return Rejected(form.error);
    }
    var e := form.value;
    var k := FirstIndex(table.rows, HasId(e.id));
    assert k >= 0 ==> Stored(table.rows[k]);
    var stored := table.UpdateMockAssignment(isUrl, e.id, e);
    match stored
    case Ok(_) => r := ActionResult(true, UpdatedMessage);
    case Err(err) => r := Caught(err, UpdateFailedMessage);
  }

  /** `updateAssignmentStatus`: any store failure, an unknown id included, gives the one fixed message. */
  method UpdateAssignmentStatus(table: AssignmentTable, id: string, status: Status) returns (r: ActionResult)
    requires table.Valid()
    modifies table
    ensures table.Valid()
    ensures r.success <==> FirstIndex(old(table.rows), HasId(id)) >= 0
    ensures r.success ==> r.message == StatusMessage(status) && table.rows == AfterSetStatus(old(table.rows), id, status).value
    ensures !r.success ==> r.message == StatusFailedMessage && table.rows == old(table.rows)
  {
    var stored := table.UpdateMockAssignmentStatus(id, status);
    if stored.Ok? {
      r := ActionResult(true, StatusMessage(status));
    } else {
      r := ActionResult(false, StatusFailedMessage);
    }
  }

  /** `deleteAssignment`. */
  method DeleteAssignment(table: AssignmentTable, id: string) returns (r: ActionResult)
    requires table.Valid()
    modifies table
    ensures table.Valid()
    ensures r.success <==> FirstIndex(old(table.rows), HasId(id)) >= 0
    ensures r.success ==> r.message == DeletedMessage && table.rows == AfterDelete(old(table.rows), id).value
    ensures !r.success ==> r.message == DeleteFailedMessage && table.rows == old(table.rows)
  {
    var stored := table.DeleteMockAssignment(id);
    if stored.Ok? {
      r := ActionResult(true, DeletedMessage);
    } else {
      r := ActionResult(false, DeleteFailedMessage);
    }
  }

  // As written, the actions file imports `addAssignment`, `updateAssignment`,
  // `deleteAssignment` and `updateAssignmentStatus` from the data module, which exports
  // only the `...MockAssignment` functions. Each imported name is undefined, calling it throws
  // a TypeError, and the catch block reports failure. The four functions below give that
  // behaviour; the methods above are the actions wired to the store as intended.

  function AddAssignmentAsWritten(data: AssignmentInput): (r: ActionResult)
    ensures !r.success
    ensures ParseAddForm(data).Ok? ==> r.message == AddFailedMessage
  {
    match ParseAddForm(data)
    case Err(issues) => Rejected(issues)
    case Ok(_) => ActionResult(false, AddFailedMessage)
  }

  function UpdateAssignmentAsWritten(data: AssignmentInput): (r: ActionResult)
    ensures !r.success
    ensures ParseUpdateForm(data).Ok? ==> r.message == UpdateFailedMessage
  {
    match ParseUpdateForm(data)
    case Err(issues) => Rejected(issues)
    case Ok(_) => ActionResult(false, UpdateFailedMessage)
  }

  function UpdateAssignmentStatusAsWritten(id: string, status: Status): ActionResult {
    ActionResult(false, StatusFailedMessage)
  }

  function DeleteAssignmentAsWritten(id: string): ActionResult {
    ActionResult(false, DeleteFailedMessage)
  }

  /** A well-formed new assignment: the wired action stores it, the action as written reports failure. */
  lemma AddAsWrittenRejectsValidInput(isUrl: string -> bool, rows: seq<Assignment>)
    ensures var data := AssignmentInput(Missing, Str("Lab 1"), Str("Submit your lab notebook by Friday."),
                                        Str("2024-10-04T23:59"), Missing, Str("Draft"), Missing);
            && ParseAddForm(data).Ok?
            && AfterAdd(isUrl, rows, ParseAddForm(data).value).Ok?
            && AddAssignmentAsWritten(data) == ActionResult(false, AddFailedMessage)
  {
    var data := AssignmentInput(Missing, Str("Lab 1"), Str("Submit your lab notebook by Friday."),
                                Str("2024-10-04T23:59"), Missing, Str("Draft"), Missing);
    assert ValidDraftInput(data);
  }

  /** A valid edit of a stored record: the wired store merges it, the action as written reports failure. */
  lemma UpdateAsWrittenRejectsValidInput(isUrl: string -> bool, rows: seq<Assignment>, data: AssignmentInput)
    requires ParseUpdateForm(data).Ok?
    requires FirstIndex(rows, HasId(ParseUpdateForm(data).value.id)) >= 0
    requires Stored(rows[FirstIndex(rows, HasId(ParseUpdateForm(data).value.id))])
    ensures var e := ParseUpdateForm(data).value;
            && AfterUpdate(isUrl, rows, e.id, e).Ok?
            && UpdateAssignmentAsWritten(data) == ActionResult(false, UpdateFailedMessage)
  {
  }

  /** A stored id: the wired store sets its status, the action as written reports failure. */
  lemma StatusAsWrittenRejectsStoredId(rows: seq<Assignment>, id: string, status: Status)
    requires FirstIndex(rows, HasId(id)) >= 0
    ensures AfterSetStatus(rows, id, status).Ok?
    ensures AfterSetStatus(rows, id, status).value[FirstIndex(rows, HasId(id))].status == status
    ensures UpdateAssignmentStatusAsWritten(id, status) == ActionResult(false, StatusFailedMessage)
  {
  }

  /** A stored id: the wired store removes its record, the action as written reports failure. */
  lemma DeleteAsWrittenRejectsStoredId(rows: seq<Assignment>, id: string)
    requires FirstIndex(rows, HasId(id)) >= 0
    ensures AfterDelete(rows, id).Ok? && |AfterDelete(rows, id).value| == |rows| - 1
    ensures DeleteAssignmentAsWritten(id) == ActionResult(false, DeleteFailedMessage)
  {
  }
}
