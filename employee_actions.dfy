/**
 * The admin server actions for employees and their tasks: validate the form (for update and
 * add-task), call the store, and report `{ success, message }`.
 */
module EmployeeActions {
  import opened Wrappers
  import opened Lists
  import opened EmployeeSchema
  import opened EmployeeData
  import opened AssignmentActions

  const EmployeeUpdatedMessage := "Employee updated successfully."
  const UnknownErrorMessage := "An unknown error occurred."
  const EmployeeDeletedMessage := "Employee deleted successfully."
  const EmployeeDeleteFailedMessage := "Failed to delete employee."
  const TaskAddedMessage := "Task added successfully."
  const TaskDeletedMessage := "Task deleted successfully."
  const TaskDeleteFailedMessage := "Failed to delete task."

  /** `updateEmployee`: invalid fields give the joined zod messages; an unknown id the generic text. */
  method UpdateEmployee(table: EmployeeTable, id: string, data: EmployeeFormInput) returns (r: ActionResult)
    modifies table
    ensures ParseEmployeeForm(data).Err? ==> r == Rejected(ParseEmployeeForm(data).error) && table.rows == old(table.rows)
    ensures ParseEmployeeForm(data).Ok? ==>
              && (r.success <==> FirstIndex(old(table.rows), HasEmployeeId(id)) >= 0)
              && (r.success ==> r.message == EmployeeUpdatedMessage
                                && table.rows == AfterUpdate(old(table.rows), id, ParseEmployeeForm(data).value).value)
              && (!r.success ==> r.message == UnknownErrorMessage && table.rows == old(table.rows))
  {
    var form := ParseEmployeeForm(data);
    if form.Err? {
      return Rejected(form.error);
    }
    var stored := table.UpdateEmployeeData(id, form.value);
    if stored.Ok? {
      r := ActionResult(true, EmployeeUpdatedMessage);
    } else {
      r := ActionResult(false, UnknownErrorMessage);
    }
  }

  /** `deleteEmployee`. */
  method DeleteEmployee(table: EmployeeTable, id: string) returns (r: ActionResult)
    modifies table
    ensures r.success <==> FirstIndex(old(table.rows), HasEmployeeId(id)) >= 0
    ensures r.success ==> r.message == EmployeeDeletedMessage && table.rows == AfterDelete(old(table.rows), id).value
    ensures !r.success ==> r.message == EmployeeDeleteFailedMessage && table.rows == old(table.rows)
  {
    var stored := table.DeleteEmployeeData(id);
    if stored.Ok? {
      r := ActionResult(true, EmployeeDeletedMessage);
    } else {
      r := ActionResult(false, EmployeeDeleteFailedMessage);
    }
  }

  /** `addTask`, wired to the intended store; `randomDigits` stands for the digits of `Math.random()`. */
  method AddTask(table: EmployeeTable, employeeId: string, randomDigits: string, data: TaskInput) returns (r: ActionResult)
    modifies table
    ensures ParseTask(data).Err? ==> r == Rejected(ParseTask(data).error) && table.rows == old(table.rows)
    ensures ParseTask(data).Ok? ==>
              && (r.success <==> FirstIndex(old(table.rows), HasEmployeeId(employeeId)) >= 0)
              && (r.success ==> r.message == TaskAddedMessage
                                && table.rows == AfterAddTask(old(table.rows), employeeId, randomDigits, ParseTask(data).value).value)
              && (!r.success ==> r.message == UnknownErrorMessage && table.rows == old(table.rows))
  {
    var form := ParseTask(data);
    if form.Err? {
      return Rejected(form.error);
    }
    var stored := table.AddEmployeeTask(employeeId, randomDigits, form.value);
    if stored.Ok? {
      r := ActionResult(true, TaskAddedMessage);
    } else {
      r := ActionResult(false, UnknownErrorMessage);
    }
  }

  /** `deleteTask`: an unknown employee and an unknown task give the same failure. */
  method DeleteTask(table: EmployeeTable, employeeId: string, taskId: string) returns (r: ActionResult)
    modifies table
    ensures r.success <==> AfterDeleteTask(old(table.rows), employeeId, taskId).Ok?
    ensures r.success ==> r.message == TaskDeletedMessage
                          && table.rows == AfterDeleteTask(old(table.rows), employeeId, taskId).value
    ensures !r.success ==> r.message == TaskDeleteFailedMessage && table.rows == old(table.rows)
  {
    var stored := table.DeleteEmployeeTask(employeeId, taskId);
    if stored.Ok? {
      r := ActionResult(true, TaskDeletedMessage);
    } else {
      r := ActionResult(false, TaskDeleteFailedMessage);
    }
  }

  /**
   * `addTask` over the store as written: a valid task reaches `addEmployeeTask`, which throws
   * (employee not found, or the undefined `taskSchema`), so the action never succeeds.
   */
  function AddTaskAsWritten(rows: seq<Employee>, employeeId: string, data: TaskInput): (r: ActionResult)
    ensures !r.success
    ensures ParseTask(data).Ok? ==> r.message == UnknownErrorMessage
    ensures ParseTask(data).Err? ==> r == Rejected(ParseTask(data).error)
  {
    match ParseTask(data)
    case Err(issues) => Rejected(issues)
    case Ok(f) =>
      match EmployeeData.AddTaskAsWritten(rows, employeeId, f)
      case Ok(_) => ActionResult(true, TaskAddedMessage)
      case Err(_) => ActionResult(false, UnknownErrorMessage)
  }

  /** A valid task for a seeded employee: the action as written fails where the intended one adds it. */
  lemma AddTaskAsWrittenFailsForSeededEmployee()
    ensures var data := TaskInput(Zod.Str("Write release notes"), Zod.Str("2024-10-01"), Zod.Str("To Do"));
            && ParseTask(data).Ok?
            && AfterAddTask(Seed, "EMP883", "12345", ParseTask(data).value).Ok?
            && AddTaskAsWritten(Seed, "EMP883", data) == ActionResult(false, UnknownErrorMessage)
  {
    var data := TaskInput(Zod.Str("Write release notes"), Zod.Str("2024-10-01"), Zod.Str("To Do"));
    assert ParseTask(data).Ok?;
    assert HasEmployeeId("EMP883")(Seed[2]);
  }
}
