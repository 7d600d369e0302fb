# Admin and student portal: stores, schemas and page rules

This project models the core of a Next.js portal in which administrators manage assignments,
employees and their tasks, and review student submissions, while students see their published
assignments and upload work for them.

- **Assignment store.** `src/lib/assignment-data.ts` keeps the assignment table in a module-level
  array and changes it in place. Here that is the class `AssignmentData.AssignmentTable`, with a
  `seq<Assignment>` field. Each store function is a method proved against a function on the old
  table (`AfterAdd`, `AfterUpdate`, `AfterSetStatus`, `AfterDelete`). The lemmas about those
  functions cover idempotence, the published count, add-then-delete and the repeatable generated
  id. The class invariant `Valid` says that every stored record passed the schema.
- **Assignment actions and row menu.** The server actions validate the form, call the store and
  turn errors into `{ success, message }`. The row menu offers a status toggle and a delete behind a
  confirmation dialog, and keeps its dialog flags and toasts as fields of `RowActions`.
- **Employee store.** `EmployeeData.EmployeeTable` holds employees, and each employee has a nested
  task list. The module also has its actions.
- **Schemas.** The zod schemas become parse functions over raw field values (`Zod.Value`: absent,
  a string or a number). Each returns `Ok` exactly when the schema's conditions hold, and otherwise
  the issue messages in zod's order. The URL and e-mail checks are parameters (`isUrl`,
  `isEmail`).
- **Page rules.** These are the submissions analytics, the student page's split into active and
  past assignments, the student dashboard's selection and submit flow (a class), the home page
  redirect and the shell's dashboard test.

Modules follow the source files. Shared helpers live in `Wrappers` (Option, Result), `Text`
(prefix test, `join`, decimal digits, `padStart`), `Lists` (`findIndex`, `filter`, `splice`) and
`Zod`.

## Model

| member | source | states |
|---|---|---|
| Lists.FindIndex | src/lib/assignment-data.ts:71 | The `findIndex` loop returns the first index whose record matches, or -1 when none does (`FirstIndex`). |
| Lists.FilterAppend | src/lib/assignment-data.ts:51 | Filtering keeps order: filtering a concatenation is the concatenation of the filtered parts. |
| Lists.FilterSplit | src/app/student/page.tsx:27-28 | A filter and its complement together keep exactly as many elements as the input has. |
| Lists.FilterReplaceLength | src/lib/assignment-data.ts:92 | Replacing one element changes a filtered length only by the two elements' contributions. |
| Lists.RemoveAt | src/lib/assignment-data.ts:101 | `splice(i, 1)` drops index i: one element shorter, the elements before i unchanged and the ones after shifted down by one. |
| Text.Join | src/app/admin/assignments/actions.ts:29 | `join(", ")` is empty for no parts and is the single part for one part. With more parts it starts with the first part and the separator. |
| Text.JoinAppend | src/app/admin/assignments/actions.ts:29 | Joining one more part appends the separator and that part, so the message lists every issue in order. |
| Text.Decimal | src/lib/assignment-data.ts:58 | `String(n)` gives digits only, they read back as n, and there is no leading zero (0 is "0"). |
| Text.PadStart | src/lib/assignment-data.ts:58 | `padStart(3, '0')` has length max(3, length), ends with the input and is fill before it. |
| Text.PaddedDecimalInjective | src/lib/assignment-data.ts:58 | Different numbers give different zero-padded strings. |
| Zod.MinLengthIssues | src/app/admin/assignments/schema.ts:6-7 | `z.string().min(n, message)` gives no issue exactly for strings of length at least n. A shorter string gives the custom message alone. |
| Zod.EnumIssues | src/app/admin/assignments/schema.ts:10 | `z.enum` gives no issue exactly for a string among the options. |
| Zod.UrlOrPathIssues | src/app/admin/assignments/schema.ts:9 | The URL-or-path union accepts exactly the strings that are URLs or start with "/". |
| Zod.EmailIssues | src/app/admin/submissions/schema.ts:6 | `email()` accepts exactly the strings that satisfy the address check. |
| Zod.OptionalNumberIssues | src/app/admin/assignments/schema.ts:11 | An optional number accepts an absent value or any number, of any sign. |
| AssignmentSchema.ParseAssignment | src/app/admin/assignments/schema.ts:4-12 | Succeeds iff the id and due date are strings, the title has at least 3 characters and the description at least 10. Any file URL is a URL or a path, the status is Draft or Published, and any count is a number. It keeps the fields, and a missing count becomes 0. |
| AssignmentSchema.ShortTitleMessage | src/app/admin/assignments/schema.ts:6 | A title shorter than 3 characters is rejected with "Title must be at least 3 characters long.". |
| AssignmentSchema.ParseAddForm | src/app/admin/assignments/actions.ts:10 | The add form checks title, description, due date and status only, and returns exactly those fields. |
| AssignmentSchema.ParseUpdateForm | src/app/admin/assignments/actions.ts:12 | The edit form checks the same fields plus a string id. |
| AssignmentSchema.FormsIgnoreCountAndFile | src/app/admin/assignments/actions.ts:10-12 | Whatever the client puts in `submissions` or `fileUrl`, the forms parse the same, so no action can set them. |
| AssignmentData.NewAssignmentIdInjective | src/lib/assignment-data.ts:58 | The generated id depends on the table length only, and tables of different lengths get different ids. |
| AssignmentData.Reparse | src/lib/assignment-data.ts:48 | A stored record re-parses to itself exactly when its lengths and its file reference pass. |
| AssignmentData.Read | src/lib/assignment-data.ts:45-55 | Without `publishedOnly` the read is the table itself. With it, every returned record is Published and comes from the table, and every Published record is returned. |
| AssignmentData.AfterAdd | src/lib/assignment-data.ts:57-68 | Fails exactly when the title or description is too short, with the title message when the title is short. Otherwise the new record goes in front with the generated id, count 0 and "/placeholder.pdf", and the old records follow in order. |
| AssignmentData.AfterUpdate | src/lib/assignment-data.ts:70-85 | An unknown id fails with "Assignment not found". Otherwise only the first matching index changes: it takes the update's id, title, description, due date and status and keeps its count and file. A failed merge changes nothing. |
| AssignmentData.AfterSetStatus | src/lib/assignment-data.ts:87-94 | An unknown id fails. Otherwise only the status of the first matching record changes. |
| AssignmentData.AfterDelete | src/lib/assignment-data.ts:96-103 | An unknown id fails. Otherwise exactly the first matching record is removed. |
| AssignmentData.SetStatusIdempotent | src/lib/assignment-data.ts:87-94 | Setting a status twice equals setting it once, and setting the current status leaves the table as it was. |
| AssignmentData.SetStatusPublishedCount | src/lib/assignment-data.ts:92 | Publishing a Draft adds one record to the published read, and unpublishing takes one away. |
| AssignmentData.AddPublishedRead | src/lib/assignment-data.ts:57-68 | After an add, the published read gains the new record in front iff it is Published. Otherwise it is unchanged. |
| AssignmentData.DeletePublishedCount | src/lib/assignment-data.ts:96-103 | A delete lowers the published count by one exactly when the removed record was Published. |
| AssignmentData.AllPublishedReadsAll | src/lib/assignment-data.ts:50-51 | When every record is Published, the published read is the whole table in order. |
| AssignmentData.AddThenDeleteRestores | src/lib/assignment-data.ts:57-68 | Deleting the id just handed out restores the old table. |
| AssignmentData.IdRepeatsAfterDelete | src/lib/assignment-data.ts:58 | After a delete, the next add can hand out an id that is already in the table (ASN002). |
| AssignmentData.AssignmentTable.GetAssignments | src/lib/assignment-data.ts:45-55 | Returns `Read` of the table and changes nothing. |
| AssignmentData.AssignmentTable.AddMockAssignment | src/lib/assignment-data.ts:57-68 | The table becomes `AfterAdd` and the method returns the new record. On failure the table is unchanged. The invariant is kept. |
| AssignmentData.AssignmentTable.UpdateMockAssignment | src/lib/assignment-data.ts:70-85 | The table becomes `AfterUpdate` and the method returns the merged record. On failure the table is unchanged. |
| AssignmentData.AssignmentTable.UpdateMockAssignmentStatus | src/lib/assignment-data.ts:87-94 | The table becomes `AfterSetStatus`. An unknown id leaves it unchanged. |
| AssignmentData.AssignmentTable.DeleteMockAssignment | src/lib/assignment-data.ts:96-103 | The table becomes `AfterDelete`. An unknown id leaves it unchanged. |
| AssignmentActions.StatusMessage | src/app/admin/assignments/actions.ts:58 | The message says "published" exactly for Published and "unpublished" exactly for Draft. |
| AssignmentActions.UpdateKeepsId | src/app/admin/assignments/actions.ts:39 | The update is addressed by the form's own id, so the updated record keeps its id. |
| AssignmentActions.AddAssignment | src/app/admin/assignments/actions.ts:15-34 | Invalid input returns the joined messages and leaves the store untouched. Valid input is stored with "Assignment added successfully.". |
| AssignmentActions.UpdateAssignment | src/app/admin/assignments/actions.ts:36-51 | Invalid input returns the joined messages. A valid edit succeeds iff the id exists, and the failure message is the fixed unknown-error text. |
| AssignmentActions.UpdateAssignmentStatus | src/app/admin/assignments/actions.ts:53-62 | Succeeds iff the id exists, with the status message. Any failure gives "Failed to update assignment status." and changes nothing. |
| AssignmentActions.DeleteAssignment | src/app/admin/assignments/actions.ts:64-73 | Succeeds iff the id exists. Any failure gives "Failed to delete assignment." and changes nothing. |
| AssignmentActions.AddAssignmentAsWritten | src/app/admin/assignments/actions.ts:6 | With the import as written, add never succeeds, and a valid form gets the unknown-error message. |
| AssignmentActions.UpdateAssignmentAsWritten | src/app/admin/assignments/actions.ts:6 | With the import as written, update never succeeds. |
| AssignmentActions.AddAsWrittenRejectsValidInput | src/app/admin/assignments/actions.ts:6 | A well-formed assignment is accepted by the intended store but reported as a failure by the action as written. |
| AssignmentActions.UpdateAsWrittenRejectsValidInput | src/app/admin/assignments/actions.ts:6 | A valid edit of a stored record is merged by the intended store but reported as a failure by the action as written. |
| AssignmentActions.StatusAsWrittenRejectsStoredId | src/app/admin/assignments/actions.ts:6 | For a stored id the intended store sets the status, while the action as written gives "Failed to update assignment status.". |
| AssignmentActions.DeleteAsWrittenRejectsStoredId | src/app/admin/assignments/actions.ts:6 | For a stored id the intended store removes the record, while the action as written gives "Failed to delete assignment.". |
| AssignmentRowActions.StatusItems | src/app/admin/assignments/data-table-row-actions.tsx:98-109 | Exactly one status item is offered. It is Publish iff the row is Draft and Unpublish iff it is Published, and its target is never the current status. |
| AssignmentRowActions.MenuItems | src/app/admin/assignments/data-table-row-actions.tsx:98-125 | The dropdown holds three items: one status item whose target is the opposite of the current status, then Edit, then Delete. |
| AssignmentRowActions.MenuOnlyToggles | src/app/admin/assignments/data-table-row-actions.tsx:98-125 | The only status item in the menu moves the row to the opposite status. |
| AssignmentRowActions.RowActions.HandleStatusChange | src/app/admin/assignments/data-table-row-actions.tsx:48-63 | Sets the status when the id exists and toasts the result. It refreshes only on success and leaves the dialogs alone. |
| AssignmentRowActions.RowActions.HandleDelete | src/app/admin/assignments/data-table-row-actions.tsx:65-81 | Deletes when the id exists and toasts the result. The handler itself closes the dialog and refreshes only on success. |
| AssignmentRowActions.RowActions.ConfirmDelete | src/app/admin/assignments/data-table-row-actions.tsx:135-139 | The Continue button runs the delete, and the dialog ends closed whatever the outcome, because the alert-dialog action closes it after the click. |
| AssignmentRowActions.RowActions.Choose | src/app/admin/assignments/data-table-row-actions.tsx:98-125 | The Delete item only opens the dialog, and Edit only opens the edit dialog: neither touches the table, the toasts or the refreshes. A status item sets the toggled status when the id exists and otherwise changes nothing, with the matching toast and refresh, and leaves both dialogs alone. |
| EmployeeSchema.ParseTask | src/app/admin/employees/schema.ts:3-7 | Accepts exactly string description and date plus one of the three status names, and keeps them. No id is read or kept. |
| EmployeeSchema.TasksIssues | src/app/admin/employees/schema.ts:14 | The task array has no issue exactly when every task is valid. |
| EmployeeSchema.EmployeeIssuesEmpty | src/app/admin/employees/schema.ts:9-15 | An employee passes exactly with four strings of any length and valid tasks. |
| EmployeeSchema.ParseEmployeeForm | src/app/admin/employees/actions.ts:9 | The edit form accepts any three strings, the empty name included. |
| EmployeeData.AfterUpdate | src/lib/employee-data.ts:39-52 | An unknown id fails with "Employee not found". Otherwise only the first match gets the new name, role and details and keeps its id and tasks. |
| EmployeeData.AfterDelete | src/lib/employee-data.ts:55-60 | An unknown id fails. Otherwise exactly the first match is removed. |
| EmployeeData.AfterAddTask | src/lib/employee-data.ts:63-75 | An unknown employee fails. Otherwise the new task, with id "TSK" plus the random digits, is appended to that employee's list only. |
| EmployeeData.AfterDeleteTask | src/lib/employee-data.ts:77-86 | Succeeds iff the employee and the task are both found. "Employee not found" comes before "Task not found", and both fail before any change. Otherwise the first task with the id is removed from that employee only. |
| EmployeeData.AddThenDeleteTaskRestores | src/lib/employee-data.ts:63-86 | Deleting a task just added under a fresh id restores the old table. |
| EmployeeData.AddTaskAsWritten | src/lib/employee-data.ts:72 | As written, adding a task never succeeds. For a known employee it throws the ReferenceError for the undefined `taskSchema`. |
| EmployeeData.UpdateAsWritten | src/lib/employee-data.ts:49 | As written, an unknown id fails with "Employee not found". Otherwise only the first match changes: it takes the new name, role and details and keeps its id and its tasks, each task with the same description, date and status but with its id removed. |
| EmployeeData.UpdateAsWrittenLosesTasks | src/lib/employee-data.ts:49-50 | After the update as written, no task of that employee can be deleted ("Task not found"). After the intended update the same delete succeeds. |
| EmployeeData.EmployeeTable.UpdateEmployeeData | src/lib/employee-data.ts:39-52 | The table becomes `AfterUpdate` and the method returns the merged record. An unknown id leaves it unchanged. |
| EmployeeData.EmployeeTable.DeleteEmployeeData | src/lib/employee-data.ts:55-60 | The table becomes `AfterDelete`. An unknown id leaves it unchanged. |
| EmployeeData.EmployeeTable.AddEmployeeTask | src/lib/employee-data.ts:63-75 | The table becomes `AfterAddTask` and the method returns the new task. An unknown employee leaves it unchanged. |
| EmployeeData.EmployeeTable.DeleteEmployeeTask | src/lib/employee-data.ts:77-86 | The table becomes `AfterDeleteTask`. Either failure leaves it unchanged and returns that error. |
| EmployeeActions.UpdateEmployee | src/app/admin/employees/actions.ts:12-25 | Invalid fields return the joined messages with no store call. A valid edit succeeds iff the employee exists, and otherwise gives "An unknown error occurred.". |
| EmployeeActions.DeleteEmployee | src/app/admin/employees/actions.ts:27-35 | Succeeds iff the employee exists. Otherwise it gives "Failed to delete employee." and changes nothing. |
| EmployeeActions.AddTask | src/app/admin/employees/actions.ts:38-50 | A task with a bad status or missing field is rejected before the store is touched. A valid task is added iff the employee exists. |
| EmployeeActions.DeleteTask | src/app/admin/employees/actions.ts:52-60 | Succeeds iff the store delete does. A missing employee and a missing task both give "Failed to delete task.". |
| EmployeeActions.AddTaskAsWritten | src/app/admin/employees/actions.ts:38-50 | Over the store as written, the add-task action never succeeds, and a valid task gets the unknown-error message. |
| EmployeeActions.AddTaskAsWrittenFailsForSeededEmployee | src/lib/employee-data.ts:72 | A valid task for a seeded employee: the intended store adds it, and the action as written reports failure. |
| StudentProfileSchema.ParseProfile | src/app/student/profile/schema.ts:4-9 | Valid iff the display name has at least 2 characters and the student id, batch and year of study are non-empty strings. The year needs no digits. |
| StudentProfileSchema.EmptyProfileMessages | src/app/student/profile/schema.ts:5-8 | An all-empty profile gets each field's own message, in key order. |
| SubmissionSchema.ParseSubmission | src/app/admin/submissions/schema.ts:3-11 | Valid iff the id, name, date and title are strings, the e-mail passes the check and the file URL is present and is a URL or a path. Any score must be a number. An absent score is an ungraded submission. |
| SubmissionsDashboard.FilteredSubmissions | src/app/admin/submissions/submissions-dashboard.tsx:23-28 | "All Assignments" gives the full list. Any other selection gives only, and all, the submissions with that title. |
| SubmissionsDashboard.Scores | src/app/admin/submissions/submissions-dashboard.tsx:31-35 | The score list has one entry per graded submission, in order, each that submission's score; ungraded ones contribute nothing. |
| SubmissionsDashboard.ScoresSum | src/app/admin/submissions/submissions-dashboard.tsx:35-36 | The sum of the score list equals the sum over the submissions in which an ungraded one adds nothing. |
| SubmissionsDashboard.Max | src/app/admin/submissions/submissions-dashboard.tsx:38 | `Math.max` returns an element that bounds every score from above. |
| SubmissionsDashboard.Min | src/app/admin/submissions/submissions-dashboard.tsx:39 | `Math.min` returns an element that bounds every score from below. |
| SubmissionsDashboard.ComputeAnalytics | src/app/admin/submissions/submissions-dashboard.tsx:30-41 | The total is the filtered count. The score cards are N/A iff no filtered submission is graded; otherwise the average's count is the number of graded submissions, its sum their scores' sum, and lowest ≤ highest. |
| SubmissionsDashboard.AnalyticsMeaning | src/app/admin/submissions/submissions-dashboard.tsx:30-41 | The total is the filtered count. The cards show N/A iff no filtered submission is graded. Otherwise the average's count is the number of graded submissions and its sum the sum of their scores, lowest ≤ every graded score ≤ highest, both are actual scores, and 0 < graded count ≤ total. |
| SubmissionsDashboard.UngradedLeavesScores | src/app/admin/submissions/submissions-dashboard.tsx:31-37 | An ungraded submission raises the total by one and leaves sum, count, highest and lowest unchanged. |
| SubmissionsDashboard.TotalsSplitByTitle | src/app/admin/submissions/submissions-dashboard.tsx:27 | The total for one title plus the submissions for other titles is the whole list. |
| StudentPage.PartitionPlacement | src/app/student/page.tsx:26-28 | An assignment with a parseable due date is active iff it is due at or after now and past iff before. One whose date does not parse is in neither list. |
| StudentPage.PartitionCount | src/app/student/page.tsx:27-28 | When every date parses, the two lists together are as long as the fetched list. |
| StudentPage.PartitionKeepsOrder | src/app/student/page.tsx:27-28 | Both lists keep the fetched order. |
| StudentPage.OnlyPublishedListed | src/app/student/page.tsx:23 | Every assignment in either list is Published. |
| StudentPage.StudentPage.Effect | src/app/student/page.tsx:19-37 | It fetches and splits only when auth is not loading and a user is present, and it then clears `pageLoading`. Otherwise nothing changes. |
| StudentPage.StudentPage.Render | src/app/student/page.tsx:40-57 | The loading text shows iff either flag is set. The login prompt shows iff both are clear and there is no user. Otherwise the dashboard shows the two lists. |
| StudentAssignmentDashboard.InitialSelection | src/app/student/student-assignment-dashboard.tsx:59-68 | The first active assignment if any, else the first past one, else none. |
| StudentAssignmentDashboard.SubmitGuard | src/app/student/student-assignment-dashboard.tsx:79-86 | A missing selection is reported before a missing file. The request is sent iff both are present and carries the selection's id and title, with no due-date check. |
| StudentAssignmentDashboard.AssignmentDashboard.LoadAssignments | src/app/student/student-assignment-dashboard.tsx:59-68 | Sets the selection to `InitialSelection` and changes nothing else. |
| StudentAssignmentDashboard.AssignmentDashboard.Select | src/app/student/student-assignment-dashboard.tsx:126-152 | Any card, active or past, becomes the selection. |
| StudentAssignmentDashboard.AssignmentDashboard.FileChange | src/app/student/student-assignment-dashboard.tsx:70-76 | The input is usable only beside a selected assignment and while nothing is being submitted. The file becomes the first picked one, or none when the input is emptied, and nothing else changes. |
| StudentAssignmentDashboard.AssignmentDashboard.BeginSubmit | src/app/student/student-assignment-dashboard.tsx:78-93 | A failed guard shows its error toast, sends nothing and leaves `isSubmitting` alone. Otherwise `isSubmitting` is set and the request is returned. |
| StudentAssignmentDashboard.AssignmentDashboard.ClickSubmit | src/app/student/student-assignment-dashboard.tsx:179-237 | The button exists only beside a selected assignment. It is disabled (`SubmitDisabled`) iff a submission is in flight or no file is picked, and a disabled click changes nothing and sends nothing. An enabled click always sends the selected assignment's id and title and sets `isSubmitting`, so neither guard message comes from a click. |
| StudentAssignmentDashboard.AssignmentDashboard.FinishSubmit | src/app/student/student-assignment-dashboard.tsx:95-105 | `isSubmitting` becomes false whatever the outcome. The file is cleared on success and kept on failure, and the matching toast is added. |
| HomePage.Redirect | src/app/page.tsx:37-41 | A redirect happens iff auth is not loading and both a user and a role are present. It goes to "/admin" for the admin role and to "/student" otherwise. |
| HomePage.Render | src/app/page.tsx:45-51 | The loading screen shows iff auth is loading or a user and a role are both present. |
| HomePage.RenderMatchesRedirect | src/app/page.tsx:37-53 | The landing page shows exactly when auth has settled and no redirect is pending. A redirect always happens behind the loading screen. |
| AppShell.Shell | src/app/shell.tsx:7-17 | The children are wrapped in the container iff the path starts with "/admin" or "/student", and are returned unwrapped otherwise. |
| AppShell.DashboardPrefixClosed | src/app/shell.tsx:7 | Any extension of a dashboard path is a dashboard path. |
| AppShell.PrefixAdmitsLookalikes | src/app/shell.tsx:7 | "/administrator" and "/students" count as dashboard paths, because the test is a raw prefix. |
| AppShell.PublicRoutesUnwrapped | src/app/shell.tsx:7 | "/signup/student", "/login" and "/" are not wrapped. |

## Left out

- Firebase, Firestore, the auth hook, the login and signup pages and the profile pages are left out. They call external services. The hook returns a constant user, so `hasUser`, `loading` and the role are parameters here.
- The student `submitAssignment` server action is left out, because it calls a data module that is not part of this model and a Firestore counter. Its result is a parameter of `FinishSubmit`.
- The file itself is not sent or stored; only whether one was picked is modelled.
- Date parsing and time are parameters. `instantOf` stands for `new Date(...)` on a due date, and `now` for the current instant. The admin dialogs' date formatting is display code.
- Scores are integers. The average is kept as its sum and count, and `toFixed(1)` is not modelled.
- The URL and e-mail checks of zod are the parameters `isUrl` and `isEmail`. Zod reports more detail than the messages modelled here (paths, codes), and only the messages are joined by the actions.
- Lengths are counted in Dafny characters. JavaScript counts UTF-16 code units, so strings outside the Basic Multilingual Plane can differ.
- The JSON deep copy, the `setTimeout` delays, `revalidatePath`, `router.refresh` and the `toast` display are left out. Toasts and refreshes are recorded as fields, and `Math.random` digits are a parameter.
- `getEmployees` is left out. It parses the employee list back through `employeeSchema`, which strips the task ids of every employee it returns, in the same way as the update finding below.
- The `addEmployee` action imported by the add-employee dialog does not exist in the employee actions file. No such operation exists to model.
- The store calls behind the server actions and the server call inside `handleSubmit` are each modelled as one atomic step. Interleaving of concurrent requests over the shared arrays is not modelled, and `handleSubmit` is split into its parts before and after the call.
- `updateAssignmentStatus` takes a typed status. A client sending another string would be written into the table unchecked, and that is not modelled.
- The student page also fetches the student's own submissions (`getSubmissionsForStudent`) and hands them to the dashboard. That call goes to a data module that is not part of this model, and the list only feeds display, so it is left out.
- The alert-dialog library's own close on Continue is modelled only as its end state in `ConfirmDelete`; the order of that close against the asynchronous delete is not.
- Intermediate renders of the student page between `setPageLoading(true)` and the fetched lists are not modelled. `Effect` states the state after the fetch.

## Findings

| source | as written | input that shows it | evidently intended | confidence | as-written member | corrected member |
|---|---|---|---|---|---|---|
| src/app/admin/assignments/actions.ts:6 | The actions import `addAssignment`, `updateAssignment`, `deleteAssignment` and `updateAssignmentStatus`, but the data module exports only the `...MockAssignment` functions. Each call throws, and every action reports failure after validation. | Add of title "Lab 1", description "Submit your lab notebook by Friday.", status Draft | The actions call the matching store functions | high; not executed | AssignmentActions.AddAsWrittenRejectsValidInput | AssignmentActions.AddAssignment |
| src/lib/employee-data.ts:72 | `taskSchema` is used but never imported (line 3). For an existing employee the call throws a ReferenceError before the push, so no task is ever added. | addTask for EMP883 with a valid To Do task | `taskSchema` is imported and carries an `id` key (the task dialog uses `taskSchema.omit({ id: true })`), so the validated task keeps its generated id and is appended to the employee's list | high; not executed | EmployeeActions.AddTaskAsWrittenFailsForSeededEmployee | EmployeeData.AfterAddTask |
| src/lib/employee-data.ts:49 | The merged employee is stored as parsed by `employeeSchema`. Its task schema (employees/schema.ts:3-7) has no `id`, so every task of the edited employee loses its id. | Update EMP721, then delete task TSK001 of EMP721: "Task not found" | An edit of name, role or details leaves the tasks as they were | high; not executed | EmployeeData.UpdateAsWrittenLosesTasks | EmployeeData.AfterUpdate |
