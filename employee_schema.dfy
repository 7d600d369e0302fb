/** `taskSchema` and `employeeSchema`, and the update form derived from the latter by `omit`. */
module EmployeeSchema {
  import opened Wrappers
  import opened Zod

  datatype TaskStatus = ToDo | InProgress | Done

  const TaskStatusNames: seq<string> := ["To Do", "In Progress", "Done"]

  /** The enum value a status is written as. */
  function TaskStatusName(st: TaskStatus): string {
    match st
    case ToDo => "To Do"
    case InProgress => "In Progress"
    case Done => "Done"
  }

  function TaskStatusFrom(v: Value): (st: TaskStatus)
    requires v.Str? && v.s in TaskStatusNames
    ensures TaskStatusName(st) == v.s
  {
    if v.s == "To Do" then ToDo else if v.s == "In Progress" then InProgress else Done
  }

  /**
   * The keys `taskSchema` reads. The schema has no `id` key, although every stored task carries
   * one: parsing a task neither checks its id nor keeps it (zod drops keys it does not know).
   */
  datatype TaskInput = TaskInput(description: Value, date: Value, status: Value)

  /** A parsed task: description, date and status, and no id. */
  datatype TaskFields = TaskFields(description: string, date: string, status: TaskStatus)

  function TaskIssues(t: TaskInput): seq<string> {
    StringIssues(t.description) + StringIssues(t.date) + EnumIssues(t.status, TaskStatusNames)
  }

  /** Description and date may be any strings; the status must be one of the three names. */
  predicate ValidTaskInput(t: TaskInput) {
    t.description.Str? && t.date.Str? && t.status.Str?
    && (t.status.s == "To Do" || t.status.s == "In Progress" || t.status.s == "Done")
  }

  /** `taskSchema.parse` (and `addTaskFormSchema.parse`, the same schema). */
  function ParseTask(t: TaskInput): (r: Result<TaskFields, seq<string>>)
    ensures r.Ok? <==> ValidTaskInput(t)
    ensures r.Err? ==> r.error != []
    ensures r.Ok? ==> r.value.description == t.description.s && r.value.date == t.date.s
                      && TaskStatusName(r.value.status) == t.status.s
  {
    var issues := TaskIssues(t);
    if issues != [] then Err(issues)
    else Ok(TaskFields(t.description.s, t.date.s, TaskStatusFrom(t.status)))
  }

  /** The issues of `z.array(taskSchema)`: those of each element, in order. */
  function TasksIssues(ts: seq<TaskInput>): (r: seq<string>)
    ensures r == [] <==> forall i :: 0 <= i < |ts| ==> ValidTaskInput(ts[i])
  {
    if ts == [] then []
    else
      assert ValidTaskInput(ts[0]) <==> TaskIssues(ts[0]) == [];
      TaskIssues(ts[0]) + TasksIssues(ts[1..])
  }

  datatype EmployeeInput = EmployeeInput(id: Value, name: Value, role: Value, details: Value, tasks: seq<TaskInput>)

  /** Four strings of any length, and tasks that are each valid. */
  predicate ValidEmployeeInput(e: EmployeeInput) {
    && e.id.Str? && e.name.Str? && e.role.Str? && e.details.Str?
    && forall i :: 0 <= i < |e.tasks| ==> ValidTaskInput(e.tasks[i])
  }

  function EmployeeIssues(e: EmployeeInput): seq<string> {
    StringIssues(e.id) + StringIssues(e.name) + StringIssues(e.role) + StringIssues(e.details)
    + TasksIssues(e.tasks)
  }

  /** `employeeSchema.parse` accepts exactly the valid inputs. */
  lemma EmployeeIssuesEmpty(e: EmployeeInput)
    ensures EmployeeIssues(e) == [] <==> ValidEmployeeInput(e)
  {
  }

  /** The fields of the edit form: `employeeSchema.omit({ id, tasks })`. */
  datatype EmployeeFormInput = EmployeeFormInput(name: Value, role: Value, details: Value)

  datatype EmployeeFields = EmployeeFields(name: string, role: string, details: string)

  /** `updateEmployeeFormSchema.parse`: any three strings pass, the empty name included. */
  function ParseEmployeeForm(f: EmployeeFormInput): (r: Result<EmployeeFields, seq<string>>)
    ensures r.Ok? <==> f.name.Str? && f.role.Str? && f.details.Str?
    ensures r.Err? ==> r.error != []
    ensures r.Ok? ==> r.value == EmployeeFields(f.name.s, f.role.s, f.details.s)
  {
    var issues := StringIssues(f.name) + StringIssues(f.role) + StringIssues(f.details);
    if issues != [] then Err(issues) else Ok(EmployeeFields(f.name.s, f.role.s, f.details.s))
  }
}
