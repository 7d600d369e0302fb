/** `assignmentSchema` and the two form schemas derived from it by `omit`. */
module AssignmentSchema {
  import opened Wrappers
  import opened Text
  import opened Zod

  datatype Status = Draft | Published

  function StatusName(s: Status): string {
    match s
    case Draft => "Draft"
    case Published => "Published"
  }

  const StatusNames: seq<string> := ["Draft", "Published"]

  /** The opposite status, the only move the admin menu offers. */
  function Toggled(s: Status): Status {
    match s
    case Draft => Published
    case Published => Draft
  }

  /** A parsed assignment: what `assignmentSchema.parse` returns. */
  datatype Assignment = Assignment(
    id: string,
    title: string,
    description: string,
    dueDate: string,
    fileUrl: Option<string>,
    status: Status,
    submissions: int)

  /** The untyped object handed to `assignmentSchema.parse`, one value per key of the schema. */
  datatype AssignmentInput = AssignmentInput(
    id: Value,
    title: Value,
    description: Value,
    dueDate: Value,
    fileUrl: Value,
    status: Value,
    submissions: Value)

  const TitleMessage := "Title must be at least 3 characters long."
  const DescriptionMessage := "Description must be at least 10 characters long."

  function TitleIssues(v: Value): seq<string> {
    MinLengthIssues(v, 3, TitleMessage)
  }

  function DescriptionIssues(v: Value): seq<string> {
    MinLengthIssues(v, 10, DescriptionMessage)
  }

  /** `fileUrl` is optional; a present one must be a URL or start with "/". */
  function FileUrlIssues(isUrl: string -> bool, v: Value): seq<string> {
    if v.Missing? then [] else UrlOrPathIssues(isUrl, v)
  }

  function StatusFrom(v: Value): Status
    requires v.Str? && v.s in StatusNames
  {
    if v.s == "Draft" then Draft else Published
  }

  /** Every issue of the object, in the order of its keys. */
  function AssignmentIssues(isUrl: string -> bool, a: AssignmentInput): seq<string> {
    StringIssues(a.id) + TitleIssues(a.title) + DescriptionIssues(a.description)
    + StringIssues(a.dueDate) + FileUrlIssues(isUrl, a.fileUrl)
    + EnumIssues(a.status, StatusNames) + OptionalNumberIssues(a.submissions)
  }

  /** The field conditions of the schema, stated one by one. */
  predicate ValidAssignmentInput(isUrl: string -> bool, a: AssignmentInput) {
    && a.id.Str?
    && a.title.Str? && |a.title.s| >= 3
    && a.description.Str? && |a.description.s| >= 10
    && a.dueDate.Str?
    && (a.fileUrl.Missing? || (a.fileUrl.Str? && (isUrl(a.fileUrl.s) || StartsWith(a.fileUrl.s, "/"))))
    && a.status.Str? && (a.status.s == "Draft" || a.status.s == "Published")
    && (a.submissions.Missing? || a.submissions.Num?)
  }

  /**
   * `assignmentSchema.parse`: accepts exactly the inputs meeting every field condition,
   * keeps the given values and puts 0 in a missing `submissions`.
   */
  function ParseAssignment(isUrl: string -> bool, a: AssignmentInput): (r: Result<Assignment, seq<string>>)
    ensures r.Ok? <==> ValidAssignmentInput(isUrl, a)
    ensures r.Err? ==> r.error != []
    ensures r.Ok? ==> && r.value.id == a.id.s && r.value.title == a.title.s
                      && r.value.description == a.description.s && r.value.dueDate == a.dueDate.s
                      && r.value.fileUrl == (if a.fileUrl.Missing? then None else Some(a.fileUrl.s))
                      && StatusName(r.value.status) == a.status.s
                      && r.value.submissions == (if a.submissions.Missing? then 0 else a.submissions.n)
  {
    var issues := AssignmentIssues(isUrl, a);
    if issues != [] then Err(issues)
    else
      Ok(Assignment(a.id.s, a.title.s, a.description.s, a.dueDate.s,
                    if a.fileUrl.Missing? then None else Some(a.fileUrl.s),
                    StatusFrom(a.status),
                    if a.submissions.Missing? then 0 else a.submissions.n))
  }

  /** A title shorter than 3 characters is rejected with the schema's own message. */
  lemma ShortTitleMessage(isUrl: string -> bool, a: AssignmentInput)
    requires a.title.Str? && |a.title.s| < 3
    ensures ParseAssignment(isUrl, a).Err?
    ensures TitleMessage in ParseAssignment(isUrl, a).error
  {
    assert TitleIssues(a.title) == [TitleMessage];
    assert AssignmentIssues(isUrl, a)[|StringIssues(a.id)|] == TitleMessage;
  }

  /** The fields the admin forms send: `assignmentSchema.omit({ id, submissions, fileUrl })`. */
  datatype AssignmentDraft = AssignmentDraft(title: string, description: string, dueDate: string, status: Status)

  /** The fields of the edit form: `assignmentSchema.omit({ submissions, fileUrl })`. */
  datatype AssignmentEdit = AssignmentEdit(id: string, title: string, description: string, dueDate: string, status: Status)

  /** The add form's conditions: `id`, `fileUrl` and `submissions` are not looked at. */
  predicate ValidDraftInput(a: AssignmentInput) {
    && a.title.Str? && |a.title.s| >= 3
    && a.description.Str? && |a.description.s| >= 10
    && a.dueDate.Str?
    && a.status.Str? && (a.status.s == "Draft" || a.status.s == "Published")
  }

  /** `addAssignmentFormSchema.parse`; the omitted keys are stripped whatever they hold. */
  function ParseAddForm(a: AssignmentInput): (r: Result<AssignmentDraft, seq<string>>)
    ensures r.Ok? <==> ValidDraftInput(a)
    ensures r.Err? ==> r.error != []
    ensures r.Ok? ==> r.value == AssignmentDraft(a.title.s, a.description.s, a.dueDate.s, StatusFrom(a.status))
  {
    var issues := TitleIssues(a.title) + DescriptionIssues(a.description)
                  + StringIssues(a.dueDate) + EnumIssues(a.status, StatusNames);
    if issues != [] then Err(issues)
    else Ok(AssignmentDraft(a.title.s, a.description.s, a.dueDate.s, StatusFrom(a.status)))
  }

  /** `updateAssignmentFormSchema.parse`: the add form plus a string `id`. */
  function ParseUpdateForm(a: AssignmentInput): (r: Result<AssignmentEdit, seq<string>>)
    ensures r.Ok? <==> a.id.Str? && ValidDraftInput(a)
    ensures r.Err? ==> r.error != []
    ensures r.Ok? ==> r.value == AssignmentEdit(a.id.s, a.title.s, a.description.s, a.dueDate.s, StatusFrom(a.status))
  {
    var issues := StringIssues(a.id) + TitleIssues(a.title) + DescriptionIssues(a.description)
                  + StringIssues(a.dueDate) + EnumIssues(a.status, StatusNames);
    if issues != [] then Err(issues)
    else Ok(AssignmentEdit(a.id.s, a.title.s, a.description.s, a.dueDate.s, StatusFrom(a.status)))
  }

  /** Whatever a client puts in `submissions` or `fileUrl`, the form parses the same. */
  lemma FormsIgnoreCountAndFile(a: AssignmentInput, submissions: Value, fileUrl: Value)
    ensures ParseAddForm(a.(submissions := submissions, fileUrl := fileUrl)) == ParseAddForm(a)
    ensures ParseUpdateForm(a.(submissions := submissions, fileUrl := fileUrl)) == ParseUpdateForm(a)
  {
  }
}
