/**
 * The in-memory employee table. Each employee carries a list of tasks, so adding or deleting
 * a task finds the employee, then works on the list nested inside that record.
 */
module EmployeeData {
  import opened Wrappers
  import opened Lists
  import opened EmployeeSchema

  /**
   * A stored task. The stored objects carry an `id`, but `taskSchema` has none, so a task that
   * has been through a zod parse has lost it: `id == None` is that stripped task.
   */
  datatype Task = Task(id: Option<string>, description: string, date: string, status: TaskStatus)

  datatype Employee = Employee(id: string, name: string, role: string, details: string, tasks: seq<Task>)

  const EmployeeNotFound := "Employee not found"
  const TaskNotFound := "Task not found"

  /** What the store functions throw. */
  datatype StoreError = NotFound(message: string) | ReferenceError(message: string)

  function HasEmployeeId(id: string): Employee -> bool {
    (e: Employee) => e.id == id
  }

  /** `t.id === taskId`: a task without an id matches no id. */
  function HasTaskId(id: string): Task -> bool {
    (t: Task) => t.id == Some(id)
  }

  /** The task `addEmployeeTask` stores: the generated id ("TSK" and random digits) with the form's fields. */
  function NewTask(randomDigits: string, f: TaskFields): Task {
    Task(Some("TSK" + randomDigits), f.description, f.date, f.status)
  }

  /** `updateEmployeeData`: name, role and details of the first employee with the id are replaced. */
  function AfterUpdate(rows: seq<Employee>, id: string, f: EmployeeFields): (r: Result<seq<Employee>, StoreError>)
    ensures r.Ok? <==> FirstIndex(rows, HasEmployeeId(id)) >= 0
    ensures r.Err? ==> r.error == NotFound(EmployeeNotFound)
    ensures r.Ok? ==> var k := FirstIndex(rows, HasEmployeeId(id));
                      && |r.value| == |rows|
                      && (forall j :: 0 <= j < |rows| && j != k ==> r.value[j] == rows[j])
                      && r.value[k] == Employee(rows[k].id, f.name, f.role, f.details, rows[k].tasks)
  {
    var k := FirstIndex(rows, HasEmployeeId(id));
    if k == -1 then Err(NotFound(EmployeeNotFound))
    else Ok(rows[k := rows[k].(name := f.name, role := f.role, details := f.details)])
  }

  /** `deleteEmployeeData`: the first employee with the id is spliced out. */
  function AfterDelete(rows: seq<Employee>, id: string): (r: Result<seq<Employee>, StoreError>)
    ensures r.Ok? <==> FirstIndex(rows, HasEmployeeId(id)) >= 0
    ensures r.Err? ==> r.error == NotFound(EmployeeNotFound)
    ensures r.Ok? ==> r.value == RemoveAt(rows, FirstIndex(rows, HasEmployeeId(id)))
  {
    var k := FirstIndex(rows, HasEmployeeId(id));
    if k == -1 then Err(NotFound(EmployeeNotFound)) else Ok(RemoveAt(rows, k))
  }

  /**
   * `addEmployeeTask`: the new task goes at the end of that employee's list, and nowhere else.
   * The stored task keeps its generated id. Importing `taskSchema` alone would not give that, since
   * its schema has no `id` key and the parse would strip it; the task dialog's
   * `taskSchema.omit({ id: true })` shows that the schema was meant to carry one.
   */
  function AfterAddTask(rows: seq<Employee>, employeeId: string, randomDigits: string, f: TaskFields): (r: Result<seq<Employee>, StoreError>)
    ensures r.Ok? <==> FirstIndex(rows, HasEmployeeId(employeeId)) >= 0
    ensures r.Err? ==> r.error == NotFound(EmployeeNotFound)
    ensures r.Ok? ==> var k := FirstIndex(rows, HasEmployeeId(employeeId));
                      && |r.value| == |rows|
                      && (forall j :: 0 <= j < |rows| && j != k ==> r.value[j] == rows[j])
                      && r.value[k] == rows[k].(tasks := rows[k].tasks + [NewTask(randomDigits, f)])
  {
    var k := FirstIndex(rows, HasEmployeeId(employeeId));
    if k == -1 then Err(NotFound(EmployeeNotFound))
    else Ok(rows[k := rows[k].(tasks := rows[k].tasks + [NewTask(randomDigits, f)])])
  }

  /**
   * `deleteEmployeeTask`: both lookups happen before anything changes; then the first task with
   * the id is spliced out of that employee's list.
   */
  function AfterDeleteTask(rows: seq<Employee>, employeeId: string, taskId: string): (r: Result<seq<Employee>, StoreError>)
    ensures var k := FirstIndex(rows, HasEmployeeId(employeeId));
            r.Ok? <==> k >= 0 && FirstIndex(rows[k].tasks, HasTaskId(taskId)) >= 0
    ensures FirstIndex(rows, HasEmployeeId(employeeId)) == -1 ==> r == Err(NotFound(EmployeeNotFound))
    ensures var k := FirstIndex(rows, HasEmployeeId(employeeId));
            k >= 0 && FirstIndex(rows[k].tasks, HasTaskId(taskId)) == -1 ==> r == Err(NotFound(TaskNotFound))
    ensures r.Ok? ==> var k := FirstIndex(rows, HasEmployeeId(employeeId));
                      && k >= 0
                      && var j := FirstIndex(rows[k].tasks, HasTaskId(taskId));
                      && j >= 0
                      && |r.value| == |rows|
                      && (forall i :: 0 <= i < |rows| && i != k ==> r.value[i] == rows[i])
                      && r.value[k] == rows[k].(tasks := RemoveAt(rows[k].tasks, j))
  {
    var k := FirstIndex(rows, HasEmployeeId(employeeId));
    if k == -1 then Err(NotFound(EmployeeNotFound))
    else
      var j := FirstIndex(rows[k].tasks, HasTaskId(taskId));
      if j == -1 then Err(NotFound(TaskNotFound))
      else Ok(rows[k := rows[k].(tasks := RemoveAt(rows[k].tasks, j))])
  }

  /** Deleting a task right after adding it under a fresh id gives back the old table. */
  lemma AddThenDeleteTaskRestores(rows: seq<Employee>, employeeId: string, randomDigits: string, f: TaskFields)
    requires AfterAddTask(rows, employeeId, randomDigits, f).Ok?
    requires var k := FirstIndex(rows, HasEmployeeId(employeeId));
             forall j :: 0 <= j < |rows[k].tasks| ==> rows[k].tasks[j].id != Some("TSK" + randomDigits)
    ensures AfterDeleteTask(AfterAddTask(rows, employeeId, randomDigits, f).value, employeeId, "TSK" + randomDigits) == Ok(rows)
  {
    var k := FirstIndex(rows, HasEmployeeId(employeeId));
    var tasks := rows[k].tasks + [NewTask(randomDigits, f)];
    var added := rows[k := rows[k].(tasks := tasks)];
    assert AfterAddTask(rows, employeeId, randomDigits, f).value == added;
    FirstIndexUpdate(rows, HasEmployeeId(employeeId), k, rows[k].(tasks := tasks));
    FirstIndexAppend(rows[k].tasks, HasTaskId("TSK" + randomDigits), NewTask(randomDigits, f));
    assert RemoveAt(tasks, |rows[k].tasks|) == rows[k].tasks;
    assert added[k := added[k].(tasks := rows[k].tasks)] == rows;
  }

  // As written, `addEmployeeTask` calls `taskSchema.parse`, but the data module imports only
  // `employeeSchema`: `taskSchema` is not defined there, and the call throws a ReferenceError
  // after the employee lookup and before the push. And `updateEmployeeData` stores the result of
  // `employeeSchema.parse`, whose task schema has no `id` key, so every task of the updated
  // employee loses its id. The functions below give that behaviour; the ones above are the
  // evidently intended store, which the table and the actions use.

  const TaskSchemaUndefined := "taskSchema is not defined"

  function AddTaskAsWritten(rows: seq<Employee>, employeeId: string, f: TaskFields): (r: Result<seq<Employee>, StoreError>)
    ensures r.Err?
    ensures FirstIndex(rows, HasEmployeeId(employeeId)) >= 0 ==> r.error == ReferenceError(TaskSchemaUndefined)
  {
    var k := FirstIndex(rows, HasEmployeeId(employeeId));
    if k == -1 then Err(NotFound(EmployeeNotFound)) else Err(ReferenceError(TaskSchemaUndefined))
  }

  /** A task as `employeeSchema.parse` returns it: without its id. */
  function Stripped(t: Task): Task {
    t.(id := None)
  }

  function UpdateAsWritten(rows: seq<Employee>, id: string, f: EmployeeFields): (r: Result<seq<Employee>, StoreError>)
    ensures r.Ok? <==> FirstIndex(rows, HasEmployeeId(id)) >= 0
    ensures r.Err? ==> r.error == NotFound(EmployeeNotFound)
    ensures r.Ok? ==> var k := FirstIndex(rows, HasEmployeeId(id));
                      && |r.value| == |rows|
                      && (forall i :: 0 <= i < |rows| && i != k ==> r.value[i] == rows[i])
                      && r.value[k].id == id
                      && r.value[k].name == f.name && r.value[k].role == f.role && r.value[k].details == f.details
                      && |r.value[k].tasks| == |rows[k].tasks|
                      && (forall j :: 0 <= j < |rows[k].tasks| ==> r.value[k].tasks[j].id.None?)
                      && forall j :: 0 <= j < |rows[k].tasks| ==> r.value[k].tasks[j] == rows[k].tasks[j].(id := None)
  {
    var k := FirstIndex(rows, HasEmployeeId(id));
    if k == -1 then Err(NotFound(EmployeeNotFound))
    else
      var tasks := seq(|rows[k].tasks|, j requires 0 <= j < |rows[k].tasks| => Stripped(rows[k].tasks[j]));
      Ok(rows[k := Employee(rows[k].id, f.name, f.role, f.details, tasks)])
  }

  /**
   * The discrepancy: after an edit of an employee holding task `taskId`, the store as written can
   * no longer delete that task ("Task not found"), while the intended store still can.
   */
  lemma UpdateAsWrittenLosesTasks(rows: seq<Employee>, id: string, f: EmployeeFields, taskId: string)
    requires FirstIndex(rows, HasEmployeeId(id)) >= 0
    requires FirstIndex(rows[FirstIndex(rows, HasEmployeeId(id))].tasks, HasTaskId(taskId)) >= 0
    ensures AfterDeleteTask(UpdateAsWritten(rows, id, f).value, id, taskId) == Err(NotFound(TaskNotFound))
    ensures AfterDeleteTask(AfterUpdate(rows, id, f).value, id, taskId).Ok?
  {
    var k := FirstIndex(rows, HasEmployeeId(id));
    var broken := UpdateAsWritten(rows, id, f).value;
    assert FirstIndex(broken, HasEmployeeId(id)) <= k by {
      assert HasEmployeeId(id)(broken[k]);
    }
    assert FirstIndex(broken, HasEmployeeId(id)) == k;
    assert forall j :: 0 <= j < |broken[k].tasks| ==> !HasTaskId(taskId)(broken[k].tasks[j]);
    var fixed := AfterUpdate(rows, id, f).value;
    FirstIndexUpdate(rows, HasEmployeeId(id), k, fixed[k]);
  }

  /** The three employees the table starts with. */
  const Seed: seq<Employee> := [
    Employee("EMP721", "John Doe", "Software Engineer", "Frontend specialist with React expertise.", [
      Task(Some("TSK001"), "Develop new dashboard feature", "2024-08-15", InProgress),
      Task(Some("TSK002"), "Fix login page bug", "2024-07-30", Done)
    ]),
    Employee("EMP452", "Jane Smith", "Project Manager", "Agile certified project manager.", [
      Task(Some("TSK003"), "Plan Q4 roadmap", "2024-09-01", ToDo)
    ]),
    Employee("EMP883", "Sam Wilson", "UI/UX Designer", "Focuses on user-centric design principles.", [])
  ]

  class EmployeeTable {
    var rows: seq<Employee>

    constructor ()
      ensures rows == Seed
    {
      rows := Seed;
    }

    /** `updateEmployeeData`, as intended: the merged record keeps the employee's id and tasks. */
    method UpdateEmployeeData(id: string, f: EmployeeFields) returns (r: Result<Employee, StoreError>)
      modifies this
      ensures AfterUpdate(old(rows), id, f).Ok? ==>
                rows == AfterUpdate(old(rows), id, f).value && r == Ok(rows[FirstIndex(old(rows), HasEmployeeId(id))])
      ensures AfterUpdate(old(rows), id, f).Err? ==> rows == old(rows) && r == Err(NotFound(EmployeeNotFound))
    {
      var index := FindIndex(rows, HasEmployeeId(id));
      if index == -1 {
        return Err(NotFound(EmployeeNotFound));
      }
      var merged := rows[index].(name := f.name, role := f.role, details := f.details);
      rows := rows[index := merged];
      r := Ok(merged);
    }

    method DeleteEmployeeData(id: string) returns (r: Result<(), StoreError>)
      modifies this
      ensures AfterDelete(old(rows), id).Ok? ==> rows == AfterDelete(old(rows), id).value && r == Ok(())
      ensures AfterDelete(old(rows), id).Err? ==> rows == old(rows) && r == Err(NotFound(EmployeeNotFound))
    {
      var index := FindIndex(rows, HasEmployeeId(id));
      if index == -1 {
        return Err(NotFound(EmployeeNotFound));
      }
      rows := RemoveAt(rows, index);
      r := Ok(());
    }

    /**
     * `addEmployeeTask`, as intended (`taskSchema` in scope and carrying `id`): the id's random
     * digits come in as `randomDigits`.
     */
    method AddEmployeeTask(employeeId: string, randomDigits: string, f: TaskFields) returns (r: Result<Task, StoreError>)
      modifies this
      ensures AfterAddTask(old(rows), employeeId, randomDigits, f).Ok? ==>
                rows == AfterAddTask(old(rows), employeeId, randomDigits, f).value && r == Ok(NewTask(randomDigits, f))
      ensures AfterAddTask(old(rows), employeeId, randomDigits, f).Err? ==>
                rows == old(rows) && r == Err(NotFound(EmployeeNotFound))
    {
      var index := FindIndex(rows, HasEmployeeId(employeeId));
      if index == -1 {
        return Err(NotFound(EmployeeNotFound));
      }
      var task := NewTask(randomDigits, f);
      rows := rows[index := rows[index].(tasks := rows[index].tasks + [task])];
      r := Ok(task);
    }

    method DeleteEmployeeTask(employeeId: string, taskId: string) returns (r: Result<(), StoreError>)
      modifies this
      ensures AfterDeleteTask(old(rows), employeeId, taskId).Ok? ==>
                rows == AfterDeleteTask(old(rows), employeeId, taskId).value && r == Ok(())
      ensures AfterDeleteTask(old(rows), employeeId, taskId).Err? ==>
                rows == old(rows) && r == Err(AfterDeleteTask(old(rows), employeeId, taskId).error)
    {
      var index := FindIndex(rows, HasEmployeeId(employeeId));
      if index == -1 {
        return Err(NotFound(EmployeeNotFound));
      }
      var taskIndex := FindIndex(rows[index].tasks, HasTaskId(taskId));
      if taskIndex == -1 {
        return Err(NotFound(TaskNotFound));
      }
      rows := rows[index := rows[index].(tasks := RemoveAt(rows[index].tasks, taskIndex))];
      r := Ok(());
    }
  }
}
